/** Whether a deleted key stays deleted: what may bring it back although nobody sets it again. */
module Deletion {
  import opened Text
  import opened Sequences
  import opened StoreSpec
  import opened Wire
  import opened NodeSpec
  import opened Preference
  import opened Cluster
  import opened Conservation

  // No node that is up has the key.
  ghost predicate Absent(c: State, key: string) {
    forall n :: n in c.nodes && c.nodes[n].up ==> key !in c.nodes[n].table
  }

  ghost predicate Before(order: seq<string>, m: string, n: string) {
    m in order && n in order && Rank(order, m) < Rank(order, n)
  }

  // A job at n that has yet to visit the key, from a snapshot that had it, and would push it on if
  // some configured node that comes before n owned it.
  ghost predicate MayPush(order: seq<string>, n: string, node: Node, key: string) {
    exists j, m :: 0 <= j < |node.jobs| && key in node.jobs[j].todo
      && Before(order, m, n) && (node.jobs[j].only.None? || node.jobs[j].only == Some(m))
  }

  // No push of the key is under way to a configured node, and none can start.
  ghost predicate NoPush(order: seq<string>, c: State, key: string) {
    && (forall p :: p in c.pushes && p.key == key ==> p.to !in c.nodes)
    && (forall n :: n in c.nodes && c.nodes[n].up ==> !MayPush(order, n, c.nodes[n], key))
  }

  // m is the replica by some view of n: n and m make up the view, or a node before m comes first.
  ghost predicate MayGoTo(order: seq<string>, n: string, m: string) {
    Before(order, n, m) || exists a :: Before(order, a, m) && Before(order, m, n)
  }

  // A replication of a SET of the key that has some configured node to go to.
  ghost predicate MayReplicate(order: seq<string>, n: string, node: Node, key: string) {
    exists task, m :: task in node.tasks && task.key == key && !task.del && MayGoTo(order, n, m)
  }

  ghost predicate NoReplication(order: seq<string>, c: State, key: string) {
    forall n :: n in c.nodes && c.nodes[n].up ==> !MayReplicate(order, n, c.nodes[n], key)
  }

  // No client sets the key; anything else may happen.
  predicate NoSet(s: Step, key: string) {
    s.ClientSet? ==> s.key != key
  }

  ghost predicate NoSetRun(run: seq<Event>, key: string) {
    forall e :: e in run ==> NoSet(e.step, key)
  }

  // ---------------------------------------------------------------- what stays away

  // What a step may do to a node without bringing the key back.
  ghost predicate Harmless(order: seq<string>, n: string, a: Node, b: Node, key: string) {
    b.up ==>
      && key !in b.table && !MayPush(order, n, b, key)
      && (!a.up || !MayReplicate(order, n, a, key) ==> !MayReplicate(order, n, b, key))
  }

  ghost predicate HarmlessStep(order: seq<string>, c: State, c': State, key: string) {
    && c'.nodes.Keys == c.nodes.Keys
    && (forall n :: n in c.nodes ==> Harmless(order, n, c.nodes[n], c'.nodes[n], key))
    && (forall p :: p in c'.pushes && p.key == key ==> p.to !in c.nodes)
  }

  ghost predicate StaysAway(order: seq<string>, c: State, key: string) {
    Absent(c, key) && NoPush(order, c, key)
  }

  lemma HarmlessKeeps(order: seq<string>, c: State, c': State, key: string)
    requires StaysAway(order, c, key) && HarmlessStep(order, c, c', key)
    ensures StaysAway(order, c', key) && (NoReplication(order, c, key) ==> NoReplication(order, c', key))
  {
    hide MayPush, MayReplicate;
  }

  lemma SameIsHarmless(order: seq<string>, n: string, node: Node, key: string)
    requires node.up ==> key !in node.table && !MayPush(order, n, node, key)
    ensures Harmless(order, n, node, node, key)
  {}

  // A step that changes one node.
  lemma HarmlessAtNode(order: seq<string>, c: State, n: string, node: Node, key: string)
    requires StaysAway(order, c, key) && n in c.nodes && Harmless(order, n, c.nodes[n], node, key)
    ensures HarmlessStep(order, c, WithNode(c, n, node), key)
  {
    hide MayPush, MayReplicate;
  }

  lemma UnconcernedIsHarmless(order: seq<string>, c: State, c': State, key: string)
    requires StaysAway(order, c, key) && c'.nodes.Keys == c.nodes.Keys && c'.pushes == c.pushes
    requires forall n :: n in c.nodes ==> Unconcerned(c.nodes[n], c'.nodes[n], key)
    requires forall n, task: Task :: n in c.nodes && task in c'.nodes[n].tasks && task.key == key && !task.del ==>
      task in c.nodes[n].tasks
    ensures HarmlessStep(order, c, c', key)
  {
    forall n | n in c.nodes ensures Harmless(order, n, c.nodes[n], c'.nodes[n], key) {}
  }

  // ---------------------------------------------------------------- the steps

  lemma StartIsHarmless(order: seq<string>, n: string, node: Node, only: Option<string>, key: string, now: int)
    requires key !in node.table && !MayPush(order, n, node, key)
    ensures Harmless(order, n, node, node.(jobs := node.jobs + [Job(only, Snapshot(node.table, now))]), key)
  {
    hide MayReplicate, Before;
    var node' := node.(jobs := node.jobs + [Job(only, Snapshot(node.table, now))]);
    forall j, m | 0 <= j < |node'.jobs| && key in node'.jobs[j].todo && Before(order, m, n)
      ensures node'.jobs[j].only.Some? && node'.jobs[j].only != Some(m)
    {
      assert j < |node.jobs| && key in node.jobs[j].todo;
    }
    SameReplications(order, n, node, node', key);
  }

  lemma SameReplications(order: seq<string>, n: string, a: Node, b: Node, key: string)
    requires forall task :: task in b.tasks ==> task in a.tasks
    ensures MayReplicate(order, n, b, key) ==> MayReplicate(order, n, a, key)
  {
    hide MayGoTo;
  }

  lemma VisitIsHarmless(order: seq<string>, n: string, node: Node, j: nat, k: string, key: string)
    requires key !in node.table && !MayPush(order, n, node, key) && j < |node.jobs|
    ensures Harmless(order, n, node, Visited(node, j, k), key)
  {
    hide MayReplicate, Before;
    var node' := Visited(node, j, k);
    forall i, m | 0 <= i < |node'.jobs| && key in node'.jobs[i].todo && Before(order, m, n)
      ensures node'.jobs[i].only.Some? && node'.jobs[i].only != Some(m)
    {
      assert key in node.jobs[i].todo;
    }
    SameReplications(order, n, node, node', key);
  }

  // A change that adds nothing about the key.
  lemma LessIsHarmless(order: seq<string>, n: string, a: Node, b: Node, key: string)
    requires a.up ==> key !in a.table && !MayPush(order, n, a, key)
    requires b.up ==> a.up && key !in b.table && b.jobs == a.jobs
    requires forall task: Task :: task in b.tasks && task.key == key && !task.del ==> task in a.tasks
    ensures Harmless(order, n, a, b, key)
  {
    hide MayGoTo, Before;
  }

  lemma FreshIsHarmless(order: seq<string>, n: string, a: Node, view: set<string>, key: string)
    ensures Harmless(order, n, a, Fresh(view), key)
  {}

  // A migration that comes to the key finds no node to push it to.
  lemma SendIsHarmless(pref: Prefs, ids: set<string>, c: State, n: string, j: nat, k: string, key: string, now: int)
    requires GoodPrefs(pref, ids) && ViewsOk(c, ids) && StaysAway(pref(key), c, key)
    requires n in c.nodes && c.nodes[n].up && j < |c.nodes[n].jobs| && k in c.nodes[n].jobs[j].todo
    ensures HarmlessStep(pref(key), c, SendPush(pref, c, n, j, k, now), key)
  {
    var c', node' := SendPush(pref, c, n, j, k, now), Visited(c.nodes[n], j, k);
    assert !MayPush(pref(key), n, c.nodes[n], key) && key !in c.nodes[n].table;
    hide MayPush, MayReplicate, Harmless, GoodPrefs, ViewsOk, Visited, RemainingSeconds, OwnerAt, Absent;
    if k == key {
      NowhereToGo(pref, ids, c, n, j, key);
    }
    VisitIsHarmless(pref(key), n, c.nodes[n], j, k, key);
    assert c'.nodes == WithNode(c, n, node').nodes;
    forall p | p in c'.pushes && p.key == key ensures p in c.pushes {}
    HarmlessAtNode(pref(key), c, n, node', key);
  }

  lemma NowhereToGo(pref: Prefs, ids: set<string>, c: State, n: string, j: nat, key: string)
    requires GoodPrefs(pref, ids) && ViewsOk(c, ids) && n in c.nodes && !MayPush(pref(key), n, c.nodes[n], key)
    requires j < |c.nodes[n].jobs| && key in c.nodes[n].jobs[j].todo
    ensures var owner := OwnerAt(pref, c, n, key); owner == n || !MustMove(owner, n, c.nodes[n].jobs[j].only)
  {
    OwnerIsEarlier(pref, ids, c, n, key);
    hide GoodPrefs, OwnerAt, Rank;
    var owner := OwnerAt(pref, c, n, key);
    assert owner != n ==> Before(pref(key), owner, n);
  }

  lemma ArriveIsHarmless(order: seq<string>, c: State, i: nat, delivery: Delivery, key: string, now: int)
    requires StaysAway(order, c, key) && i < |c.pushes|
    ensures HarmlessStep(order, c, ArrivePush(c, i, delivery, now), key)
  {
    var p, c' := c.pushes[i], ArrivePush(c, i, delivery, now);
    assert p.key == key ==> p.to !in c.nodes;
    forall n | n in c.nodes ensures Harmless(order, n, c.nodes[n], c'.nodes[n], key) {
      ArrivesElsewhere(c, i, delivery, key, n, now);
      LessIsHarmless(order, n, c.nodes[n], c'.nodes[n], key);
    }
    ArrivedPushes(c, i, delivery, now);
    hide Harmless, ArrivePush;
  }

  lemma ArrivedPushes(c: State, i: nat, delivery: Delivery, now: int)
    requires i < |c.pushes|
    ensures var c' := ArrivePush(c, i, delivery, now);
      c'.nodes.Keys == c.nodes.Keys && forall p :: p in c'.pushes ==> p in c.pushes
  {
    hide ApplyLocal, PushRequest;
  }

  lemma ArrivesElsewhere(c: State, i: nat, delivery: Delivery, key: string, n: string, now: int)
    requires i < |c.pushes| && n in c.nodes && (c.pushes[i].key == key ==> c.pushes[i].to !in c.nodes)
    ensures var a, b := c.nodes[n], ArrivePush(c, i, delivery, now).nodes[n];
      && b.up == a.up && b.jobs == a.jobs && b.tasks == a.tasks && (key in b.table ==> key in a.table)
  {
    hide Without, Deliver, PushRequest;
    var p, c1 := c.pushes[i], c.(pushes := Without(c.pushes, i));
    if p.to in c.nodes {
      PushRequestIs(p);
      DeliversHarmlessly(c1, p.to, PushRequest(p.key, p.value, p.seconds), key, n, now);
    }
  }

  lemma PushRequestIs(p: Pushed)
    ensures var r := PushRequest(p.key, p.value, p.seconds); r.LocalSet? && r.key == p.key
  {}

  // ---------------------------------------------------------------- replications

  // Keeping part of a list keeps its order.
  lemma {:induction false} KeepIndices(s: seq<string>, keep: set<string>, i: nat, j: nat) returns (a: nat, b: nat)
    requires i < j < |Keep(s, keep)|
    ensures a < b < |s| && s[a] == Keep(s, keep)[i] && s[b] == Keep(s, keep)[j]
  {
    var init, last := s[..|s| - 1], s[|s| - 1];
    if j < |Keep(init, keep)| {
      a, b := KeepIndices(init, keep, i, j);
    } else {
      a := KeepIndex(init, keep, i);
      b := |s| - 1;
    }
  }

  lemma {:induction false} KeepIndex(s: seq<string>, keep: set<string>, i: nat) returns (a: nat)
    requires i < |Keep(s, keep)|
    ensures a < |s| && s[a] == Keep(s, keep)[i]
  {
    if i < |Keep(s[..|s| - 1], keep)| {
      a := KeepIndex(s[..|s| - 1], keep, i);
    } else {
      a := |s| - 1;
    }
  }

  lemma KeepRanks(order: seq<string>, view: set<string>, i: nat, j: nat)
    requires Distinct(order) && i < j < |Keep(order, view)|
    ensures Before(order, Keep(order, view)[i], Keep(order, view)[j])
  {
    var a, b := KeepIndices(order, view, i, j);
    RankOfIndex(order, a);
    RankOfIndex(order, b);
  }

  lemma RankOfIndex(order: seq<string>, a: nat)
    requires Distinct(order) && a < |order|
    ensures order[a] in order && Rank(order, order[a]) == a
  {}

  // A replication goes only where MayGoTo allows.
  lemma ReplicaMayBe(pref: Prefs, ids: set<string>, c: State, n: string, key: string)
    requires GoodPrefs(pref, ids) && ViewsOk(c, ids) && n in ids
    ensures ReplicaAt(pref, c, n, key).Some? ==> MayGoTo(pref(key), n, ReplicaAt(pref, c, n, key).value)
  {
    var order, view := pref(key), c.nodes[n].view;
    var kept := Keep(order, view);
    if ReplicaAt(pref, c, n, key).Some? {
      var m := kept[1];
      KeepRanks(order, view, 0, 1);
      assert n in order;
      KeepElements(order, view);
      assert n in kept;
      var i :| 0 <= i < |kept| && kept[i] == n;
      if i > 1 {
        KeepRanks(order, view, 1, i);
      }
    }
  }

  lemma ReplicationIsHarmless(pref: Prefs, ids: set<string>, c: State, n: string, task: Task, delivered: bool,
                              key: string, now: int)
    requires GoodPrefs(pref, ids) && ViewsOk(c, ids) && StaysAway(pref(key), c, key)
    requires n in c.nodes && c.nodes[n].up && task in c.nodes[n].tasks
    requires task.key == key && !task.del ==> !MayReplicate(pref(key), n, c.nodes[n], key)
    ensures HarmlessStep(pref(key), c, FinishTask(pref, c, n, task, delivered, now), key)
  {
    if task.key == key && !task.del {
      ReplicaMayBe(pref, ids, c, n, key);
      assert ReplicaAt(pref, c, n, key).None?;
    }
    forall m | m in c.nodes
      ensures Harmless(pref(key), m, c.nodes[m], FinishTask(pref, c, n, task, delivered, now).nodes[m], key)
    {
      FinishesHarmlessly(pref, c, n, task, delivered, key, m, now);
      LessIsHarmless(pref(key), m, c.nodes[m], FinishTask(pref, c, n, task, delivered, now).nodes[m], key);
    }
    FinishKeepsPushes(pref, c, n, task, delivered, now);
    hide Harmless, FinishTask, GoodPrefs;
  }

  lemma FinishesHarmlessly(pref: Prefs, c: State, n: string, task: Task, delivered: bool, key: string, m: string,
                           now: int)
    requires n in c.nodes && m in c.nodes
    requires task.key == key && !task.del ==> ReplicaAt(pref, c, n, key).None?
    ensures var a, b := c.nodes[m], FinishTask(pref, c, n, task, delivered, now).nodes[m];
      && b.up == a.up && b.jobs == a.jobs && (forall t :: t in b.tasks ==> t in a.tasks)
      && (key in b.table ==> key in a.table)
  {
    hide ReplicaAt, Deliver, ReplicaRequest;
    var c1 := WithNode(c, n, c.nodes[n].(tasks := c.nodes[n].tasks - multiset{task}));
    var target, r := ReplicaAt(pref, c, n, task.key), ReplicaRequest(task.key, task.value, task.ttl, task.del);
    if target.Some? && target.value in c1.nodes {
      ReplicaRequestKey(task);
      DeliversHarmlessly(c1, target.value, r, key, m, now);
    }
  }

  lemma DeliversHarmlessly(c: State, n: string, r: Request, key: string, m: string, now: int)
    requires n in c.nodes && m in c.nodes && (r.LocalDel? || (r.LocalSet? && r.key != key))
    ensures var a, b := c.nodes[m], Deliver(c, n, r, now).nodes[m];
      b.up == a.up && b.jobs == a.jobs && b.tasks == a.tasks && (key in b.table ==> key in a.table)
  {}

  lemma FinishKeepsPushes(pref: Prefs, c: State, n: string, task: Task, delivered: bool, now: int)
    requires n in c.nodes
    ensures var c' := FinishTask(pref, c, n, task, delivered, now);
      c'.nodes.Keys == c.nodes.Keys && c'.pushes == c.pushes
  {
    hide ReplicaAt, ApplyLocal, ReplicaRequest;
  }

  // ---------------------------------------------------------------- all steps

  lemma WriteIsHarmless(order: seq<string>, c: State, n: string, task: Task, key: string, now: int)
    requires StaysAway(order, c, key) && n in c.nodes && c.nodes[n].up && (task.key == key ==> task.del)
    ensures HarmlessStep(order, c, WriteAt(c, n, task, now), key)
  {
    var node' := WriteAt(c, n, task, now).nodes[n];
    LessIsHarmless(order, n, c.nodes[n], node', key);
    hide Harmless, StaysAway;
    HarmlessAtNode(order, c, n, node', key);
  }

  lemma RoutedWriteIsHarmless(pref: Prefs, ids: set<string>, c: State, n: string, task: Task, key: string, now: int)
    requires GoodPrefs(pref, ids) && ViewsOk(c, ids) && n in ids && c.nodes[n].up
    requires StaysAway(pref(key), c, key) && (task.key == key ==> task.del)
    ensures var end := Route(pref, ids, c, n, task.key);
      end.Some? ==> HarmlessStep(pref(key), c, WriteAt(c, end.value, task, now), key)
  {
    RouteEndsUp(pref, ids, c, n, task.key);
    hide GoodPrefs, WriteAt, StaysAway, HarmlessStep;
    var end := Route(pref, ids, c, n, task.key);
    if end.Some? {
      WriteIsHarmless(pref(key), c, end.value, task, key, now);
    }
  }

  lemma {:induction false} RouteEndsUp(pref: Prefs, ids: set<string>, c: State, n: string, key: string)
    requires GoodPrefs(pref, ids) && ViewsOk(c, ids) && n in ids && c.nodes[n].up
    ensures Route(pref, ids, c, n, key).Some? ==> c.nodes[Route(pref, ids, c, n, key).value].up
    decreases (OwnerIsEarlier(pref, ids, c, n, key); Rank(pref(key), n))
  {
    OwnerIsEarlier(pref, ids, c, n, key);
    var owner := OwnerAt(pref, c, n, key);
    if owner != n {
      OwnerIsEarlier(pref, ids, c, owner, key);
      if c.nodes[owner].up {
        RouteEndsUp(pref, ids, c, owner, key);
      }
    }
  }

  lemma StillHarmless(order: seq<string>, c: State, key: string)
    requires StaysAway(order, c, key)
    ensures HarmlessStep(order, c, c, key)
  {
    hide MayPush, MayReplicate;
  }

  lemma SameNodesHarmless(order: seq<string>, c: State, c': State, c2: State, key: string)
    requires HarmlessStep(order, c, c', key) && c2.nodes == c'.nodes && c2.pushes == c'.pushes
    ensures HarmlessStep(order, c, c2, key)
  {
    hide Harmless;
  }

  lemma ClientStepIsHarmless(pref: Prefs, ids: set<string>, c: State, e: Event, key: string)
    requires GoodPrefs(pref, ids) && ViewsOk(c, ids) && StaysAway(pref(key), c, key) && NoSet(e.step, key)
    requires e.step.ClientSet? || e.step.ClientDel?
    ensures HarmlessStep(pref(key), c, Next(pref, ids, c, e), key)
  {
    assert c.nodes.Keys == ids;
    StillHarmless(pref(key), c, key);
    hide GoodPrefs, ViewsOk, WriteAt, Token, Route, HarmlessStep, StaysAway;
    var n := e.step.entry;
    if n in c.nodes && c.nodes[n].up {
      var task := if e.step.ClientDel? then Task(e.step.key, "", 0, true)
        else Task(e.step.key, e.step.value, e.step.ttl, false);
      RoutedWriteIsHarmless(pref, ids, c, n, task, key, e.now);
      var end := Route(pref, ids, c, n, e.step.key);
      if end.Some? && Next(pref, ids, c, e) != c {
        SameNodesHarmless(pref(key), c, WriteAt(c, end.value, task, e.now), Next(pref, ids, c, e), key);
      }
    }
  }

  lemma CrashIsHarmless(order: seq<string>, c: State, n: string, key: string)
    requires StaysAway(order, c, key) && n in c.nodes
    ensures var c' := WithNode(c, n, Fresh(c.nodes.Keys).(up := false)).(pushes := Orphaned(c.pushes, n));
      HarmlessStep(order, c, c', key)
  {
    hide MayPush, MayReplicate;
    forall p | p in Orphaned(c.pushes, n) && p.key == key ensures p.to !in c.nodes {
      var i :| 0 <= i < |c.pushes| && Orphaned(c.pushes, n)[i] == p;
      assert c.pushes[i] in c.pushes;
    }
  }

  lemma LocalStepIsHarmless(pref: Prefs, ids: set<string>, c: State, e: Event, key: string)
    requires GoodPrefs(pref, ids) && ViewsOk(c, ids) && StaysAway(pref(key), c, key)
    requires e.step.ViewChange? || e.step.StartMigration? || e.step.Restart? || e.step.DeletePushed?
      || e.step.SweepNode?
    ensures HarmlessStep(pref(key), c, Next(pref, ids, c, e), key)
  {
    StillHarmless(pref(key), c, key);
    var n, c' := e.step.n, Next(pref, ids, c, e);
    if n in c.nodes && c' != c {
      var node := c.nodes[n];
      assert node.up ==> key !in node.table && !MayPush(pref(key), n, node, key);
      hide MayPush, MayReplicate, GoodPrefs, ViewsOk, StaysAway, Harmless;
      if e.step.StartMigration? {
        StartIsHarmless(pref(key), n, node, e.step.only, key, e.now);
      } else if e.step.Restart? {
        FreshIsHarmless(pref(key), n, node, c.nodes.Keys, key);
      } else {
        LessIsHarmless(pref(key), n, node, c'.nodes[n], key);
      }
      hide Snapshot, Sweep, Deleted;
      assert c' == WithNode(c, n, c'.nodes[n]);
      HarmlessAtNode(pref(key), c, n, c'.nodes[n], key);
    }
  }

  // A step may bring the key back only by replicating a SET of it.
  ghost predicate Covered(order: seq<string>, c: State, s: Step, key: string) {
    NoReplication(order, c, key) || (s.Replicate? ==> s.task.key != key)
  }

  lemma StepIsHarmless(pref: Prefs, ids: set<string>, c: State, e: Event, key: string)
    requires GoodPrefs(pref, ids) && ViewsOk(c, ids) && StaysAway(pref(key), c, key)
    requires NoSet(e.step, key) && Covered(pref(key), c, e.step, key)
    ensures HarmlessStep(pref(key), c, Next(pref, ids, c, e), key)
  {
    hide Next, GoodPrefs, ViewsOk, StaysAway, HarmlessStep, Covered;
    match e.step
    case ClientSet(_, _, _, _) => ClientStepIsHarmless(pref, ids, c, e, key);
    case ClientDel(_, _) => ClientStepIsHarmless(pref, ids, c, e, key);
    case Replicate(n, task, delivered) => ReplicateStepIsHarmless(pref, ids, c, e, key);
    case Send(n, j, k) => SendStepIsHarmless(pref, ids, c, e, key);
    case Arrive(i, delivery) => ArriveStepIsHarmless(pref, ids, c, e, key);
    case Crash(n) => CrashStepIsHarmless(pref, ids, c, e, key);
    case _ => LocalStepIsHarmless(pref, ids, c, e, key);
  }

  lemma ReplicateStepIsHarmless(pref: Prefs, ids: set<string>, c: State, e: Event, key: string)
    requires GoodPrefs(pref, ids) && ViewsOk(c, ids) && StaysAway(pref(key), c, key)
    requires e.step.Replicate? && Covered(pref(key), c, e.step, key)
    ensures HarmlessStep(pref(key), c, Next(pref, ids, c, e), key)
  {
    StillHarmless(pref(key), c, key);
    hide GoodPrefs, ViewsOk, StaysAway, HarmlessStep, FinishTask, MayReplicate;
    var n, task := e.step.n, e.step.task;
    if n in c.nodes && c.nodes[n].up && task in c.nodes[n].tasks {
      ReplicationIsHarmless(pref, ids, c, n, task, e.step.delivered, key, e.now);
    }
  }

  lemma SendStepIsHarmless(pref: Prefs, ids: set<string>, c: State, e: Event, key: string)
    requires GoodPrefs(pref, ids) && ViewsOk(c, ids) && StaysAway(pref(key), c, key) && e.step.Send?
    ensures HarmlessStep(pref(key), c, Next(pref, ids, c, e), key)
  {
    StillHarmless(pref(key), c, key);
    hide GoodPrefs, ViewsOk, StaysAway, HarmlessStep, SendPush;
    var n, j, k := e.step.n, e.step.job, e.step.key;
    if n in c.nodes && c.nodes[n].up && j < |c.nodes[n].jobs| && k in c.nodes[n].jobs[j].todo {
      SendIsHarmless(pref, ids, c, n, j, k, key, e.now);
    }
  }

  lemma ArriveStepIsHarmless(pref: Prefs, ids: set<string>, c: State, e: Event, key: string)
    requires GoodPrefs(pref, ids) && ViewsOk(c, ids) && StaysAway(pref(key), c, key) && e.step.Arrive?
    ensures HarmlessStep(pref(key), c, Next(pref, ids, c, e), key)
  {
    StillHarmless(pref(key), c, key);
    hide GoodPrefs, ViewsOk, StaysAway, HarmlessStep, ArrivePush;
    if e.step.push < |c.pushes| {
      ArriveIsHarmless(pref(key), c, e.step.push, e.step.delivery, key, e.now);
    }
  }

  lemma CrashStepIsHarmless(pref: Prefs, ids: set<string>, c: State, e: Event, key: string)
    requires GoodPrefs(pref, ids) && ViewsOk(c, ids) && StaysAway(pref(key), c, key) && e.step.Crash?
    ensures HarmlessStep(pref(key), c, Next(pref, ids, c, e), key)
  {
    StillHarmless(pref(key), c, key);
    hide GoodPrefs, ViewsOk, StaysAway, HarmlessStep, Orphaned;
    if e.step.n in c.nodes {
      CrashIsHarmless(pref(key), c, e.step.n, key);
    }
  }

  lemma {:induction false} RunStaysAway(pref: Prefs, ids: set<string>, c: State, run: seq<Event>, key: string)
    requires GoodPrefs(pref, ids) && ViewsOk(c, ids) && StaysAway(pref(key), c, key)
    requires NoSetRun(run, key) && (NoReplication(pref(key), c, key) || QuietRun(run, key))
    ensures Absent(Cluster.Run(pref, ids, c, run), key)
    decreases run
  {
    hide Next, GoodPrefs, ViewsOk, NoSet, NoReplication, NoPush;
    if run != [] {
      var e, rest := run[0], run[1..];
      assert e in run;
      assert forall e :: e in rest ==> e in run;
      StepIsHarmless(pref, ids, c, e, key);
      hide HarmlessStep;
      HarmlessKeeps(pref(key), c, Next(pref, ids, c, e), key);
      NextKeepsViews(pref, ids, c, e);
      RunStaysAway(pref, ids, Next(pref, ids, c, e), rest, key);
    }
  }

  // ---------------------------------------------------------------- what comes back

  lemma RunCons(pref: Prefs, ids: set<string>, c: State, e: Event, run: seq<Event>)
    requires GoodPrefs(pref, ids) && ViewsOk(c, ids)
    ensures ViewsOk(Next(pref, ids, c, e), ids)
    ensures Cluster.Run(pref, ids, c, [e] + run) == Cluster.Run(pref, ids, Next(pref, ids, c, e), run)
  {
    hide Next, GoodPrefs, ViewsOk;
    NextKeepsViews(pref, ids, c, e);
    assert ([e] + run)[0] == e && ([e] + run)[1..] == run;
  }

  lemma RunOne(pref: Prefs, ids: set<string>, c: State, e: Event)
    requires GoodPrefs(pref, ids) && ViewsOk(c, ids)
    ensures Cluster.Run(pref, ids, c, [e]) == Next(pref, ids, c, e)
  {
    hide Next, GoodPrefs, ViewsOk;
    RunCons(pref, ids, c, e, []);
    assert [e] + [] == [e];
  }

  // A push under way to a configured node arrives once that node is up.
  lemma PushArrives(pref: Prefs, ids: set<string>, c: State, i: nat, key: string) returns (run: seq<Event>)
    requires GoodPrefs(pref, ids) && ViewsOk(c, ids)
    requires i < |c.pushes| && c.pushes[i].key == key && c.pushes[i].to in c.nodes
    ensures QuietRun(run, key) && !Absent(Cluster.Run(pref, ids, c, run), key)
  {
    var to := c.pushes[i].to;
    var a, b := Event(0, Restart(to)), Event(0, Arrive(i, Unacknowledged));
    run := [a] + [b];
    RunCons(pref, ids, c, a, [b]);
    var c1 := Next(pref, ids, c, a);
    RunOne(pref, ids, c1, b);
    Restarted(pref, ids, c, to);
    ArrivesAt(pref, ids, c1, i);
    hide Next, GoodPrefs, ViewsOk;
    assert to in Next(pref, ids, c1, b).nodes;
  }

  lemma Restarted(pref: Prefs, ids: set<string>, c: State, n: string)
    requires GoodPrefs(pref, ids) && ViewsOk(c, ids) && n in c.nodes
    ensures var c' := Next(pref, ids, c, Event(0, Restart(n)));
      && c'.pushes == c.pushes && c'.nodes.Keys == c.nodes.Keys && c'.nodes[n].up
      && forall m :: m in c.nodes && m != n ==> c'.nodes[m] == c.nodes[m]
  {
    hide GoodPrefs, ViewsOk;
  }

  lemma ArrivesAt(pref: Prefs, ids: set<string>, c: State, i: nat)
    requires GoodPrefs(pref, ids) && ViewsOk(c, ids)
    requires i < |c.pushes| && c.pushes[i].to in c.nodes && c.nodes[c.pushes[i].to].up
    ensures var c', to := Next(pref, ids, c, Event(0, Arrive(i, Unacknowledged))), c.pushes[i].to;
      to in c'.nodes && c'.nodes[to].up && c.pushes[i].key in c'.nodes[to].table
  {
    hide GoodPrefs, ViewsOk, Without;
  }

  lemma ViewTaken(pref: Prefs, ids: set<string>, c: State, n: string, view: set<string>)
    requires GoodPrefs(pref, ids) && ViewsOk(c, ids) && n in c.nodes && c.nodes[n].up && n in view && view <= ids
    ensures Next(pref, ids, c, Event(0, ViewChange(n, view))) == WithNode(c, n, c.nodes[n].(view := view))
  {
    hide GoodPrefs;
  }

  lemma PairOwner(order: seq<string>, n: string, m: string)
    requires Before(order, m, n)
    ensures OwnerIn(order, {n, m}) == m
  {
    OwnerRanksFirst(order, {n, m}, m);
    OwnerRanksFirst(order, {n, m}, n);
  }

  lemma SendsPush(pref: Prefs, ids: set<string>, c: State, n: string, j: nat, key: string, m: string)
    requires GoodPrefs(pref, ids) && ViewsOk(c, ids) && n in c.nodes && c.nodes[n].up && m in c.nodes
    requires j < |c.nodes[n].jobs| && key in c.nodes[n].jobs[j].todo && OwnerAt(pref, c, n, key) == m && m != n
    requires c.nodes[n].jobs[j].only.None? || c.nodes[n].jobs[j].only == Some(m)
    ensures var c' := Next(pref, ids, c, Event(0, Send(n, j, key)));
      && c'.nodes.Keys == c.nodes.Keys && |c'.pushes| == |c.pushes| + 1
      && c'.pushes[|c.pushes|].key == key && c'.pushes[|c.pushes|].to == m
  {
    hide GoodPrefs, ViewsOk, OwnerAt, RemainingSeconds;
  }

  lemma QuietPushes(n: string, view: set<string>, j: nat, key: string)
    ensures Quiet(ViewChange(n, view), key) && Quiet(Send(n, j, key), key)
  {}

  // A snapshot's key is pushed on as soon as the sender believes an earlier node to own it.
  lemma SnapshotIsPushed(pref: Prefs, ids: set<string>, c: State, n: string, key: string) returns (run: seq<Event>)
    requires GoodPrefs(pref, ids) && ViewsOk(c, ids)
    requires n in c.nodes && c.nodes[n].up && MayPush(pref(key), n, c.nodes[n], key)
    ensures QuietRun(run, key) && !Absent(Cluster.Run(pref, ids, c, run), key)
  {
    var j, m :| 0 <= j < |c.nodes[n].jobs| && key in c.nodes[n].jobs[j].todo
      && Before(pref(key), m, n) && (c.nodes[n].jobs[j].only.None? || c.nodes[n].jobs[j].only == Some(m));
    assert c.nodes.Keys == ids && m in ids;
    var a, b := Event(0, ViewChange(n, {n, m})), Event(0, Send(n, j, key));
    PairOwner(pref(key), n, m);
    hide Next, GoodPrefs, OwnerIn, Absent, MayPush, Before, Quiet;
    ViewTaken(pref, ids, c, n, {n, m});
    var c1 := Next(pref, ids, c, a);
    NextKeepsViews(pref, ids, c, a);
    assert Quiet(a.step, key) && Quiet(b.step, key) by { QuietPushes(n, {n, m}, j, key); }
    SendsPush(pref, ids, c1, n, j, key, m);
    var c2 := Next(pref, ids, c1, b);
    NextKeepsViews(pref, ids, c1, b);
    hide ViewsOk;
    var rest := PushArrives(pref, ids, c2, |c.pushes|, key);
    run := [a] + ([b] + rest);
    RunCons(pref, ids, c, a, [b] + rest);
    RunCons(pref, ids, c1, b, rest);
  }

  // A view of n in which m is the replica.
  lemma ReplicaView(order: seq<string>, n: string, m: string) returns (view: set<string>)
    requires Distinct(order) && MayGoTo(order, n, m)
    ensures n in view && (forall v :: v in view ==> v in order) && m in order && m != n
    ensures ReplicaTarget(Take(Keep(order, view), 2), n) == Some(m)
  {
    var first := n;
    if !Before(order, n, m) {
      first :| Before(order, first, m) && Before(order, m, n);
    }
    view := {first, m, n};
    SecondKept(order, view, first, m, n);
  }

  lemma SecondKept(order: seq<string>, view: set<string>, first: string, m: string, n: string)
    requires Distinct(order) && view == {first, m, n} && Before(order, first, m)
    requires n == first || Before(order, m, n)
    ensures |Keep(order, view)| >= 2 && Keep(order, view)[1] == m
  {
    var kept := Keep(order, view);
    KeepElements(order, view);
    assert first in kept && m in kept;
    var i :| 0 <= i < |kept| && kept[i] == first;
    var j :| 0 <= j < |kept| && kept[j] == m;
    if j < i {
      KeepRanks(order, view, j, i);
    }
    assert kept[1] in kept && kept[0] in kept;
    assert i < j;
    KeepRanks(order, view, 0, 1);
    if j > 1 {
      KeepRanks(order, view, 1, j);
      hide Keep, Distinct, Rank;
    }
  }

  lemma ReplicationArrives(pref: Prefs, ids: set<string>, c: State, n: string, task: Task, m: string)
    requires GoodPrefs(pref, ids) && ViewsOk(c, ids) && n in c.nodes && c.nodes[n].up && task in c.nodes[n].tasks
    requires !task.del && m in c.nodes && m != n && c.nodes[m].up && ReplicaAt(pref, c, n, task.key) == Some(m)
    ensures var c' := Next(pref, ids, c, Event(0, Replicate(n, task, true)));
      m in c'.nodes && c'.nodes[m].up && task.key in c'.nodes[m].table
  {
    hide GoodPrefs, ViewsOk, ReplicaAt;
  }

  // A pending replication of a SET gets to a replica under some view of the sender.
  lemma SetIsReplicated(pref: Prefs, ids: set<string>, c: State, n: string, key: string) returns (run: seq<Event>)
    requires GoodPrefs(pref, ids) && ViewsOk(c, ids)
    requires n in c.nodes && c.nodes[n].up && MayReplicate(pref(key), n, c.nodes[n], key)
    ensures NoSetRun(run, key) && !Absent(Cluster.Run(pref, ids, c, run), key)
  {
    var task, m :| task in c.nodes[n].tasks && task.key == key && !task.del && MayGoTo(pref(key), n, m);
    hide MayReplicate, MayGoTo;
    var view := ReplicaView(pref(key), n, m);
    assert c.nodes.Keys == ids && view <= ids && m in ids;
    run := [Event(0, Restart(m)), Event(0, ViewChange(n, view)), Event(0, Replicate(n, task, true))];
    hide GoodPrefs, ViewsOk, Absent;
    ThreeStepsReplicate(pref, ids, c, n, task, m, view);
  }

  lemma ThreeStepsReplicate(pref: Prefs, ids: set<string>, c: State, n: string, task: Task, m: string,
                            view: set<string>)
    requires GoodPrefs(pref, ids) && ViewsOk(c, ids) && n in c.nodes && c.nodes[n].up && task in c.nodes[n].tasks
    requires !task.del && m in c.nodes && m != n && n in view && view <= ids
    requires ReplicaTarget(Take(Keep(pref(task.key), view), 2), n) == Some(m)
    ensures var run := [Event(0, Restart(m)), Event(0, ViewChange(n, view)), Event(0, Replicate(n, task, true))];
      !Absent(Cluster.Run(pref, ids, c, run), task.key)
  {
    var a, b, d := Event(0, Restart(m)), Event(0, ViewChange(n, view)), Event(0, Replicate(n, task, true));
    hide Next, GoodPrefs, Keep, Take, ReplicaTarget, ViewsOk;
    Restarted(pref, ids, c, m);
    NextKeepsViews(pref, ids, c, a);
    var c1 := Next(pref, ids, c, a);
    ViewTaken(pref, ids, c1, n, view);
    NextKeepsViews(pref, ids, c1, b);
    var c2 := Next(pref, ids, c1, b);
    assert ReplicaAt(pref, c2, n, task.key) == Some(m);
    hide ReplicaAt, Cluster.Run;
    ReplicationArrives(pref, ids, c2, n, task, m);
    RunOne(pref, ids, c2, d);
    RunCons(pref, ids, c1, b, [d]);
    RunCons(pref, ids, c, a, [b] + [d]);
    assert [a] + ([b] + [d]) == [a, b, d];
  }

  // ---------------------------------------------------------------- the exact conditions

  /** Deletion is final exactly when nothing of the key is under way. Take any state in which no node
      that is up has the key. Nodes may crash and restart, views change, migrations, replications and
      all other traffic go on: the key stays absent in every run in which no client sets it again, iff
      no push of it is on its way to a configured node, no snapshot holding it may still be pushed to
      some node before its own, and no replication of a SET of it has a replica to go to. */
  lemma DeletionIsFinalIff(pref: Prefs, ids: set<string>, c: State, key: string)
    requires GoodPrefs(pref, ids) && ViewsOk(c, ids) && Absent(c, key)
    ensures (forall run :: NoSetRun(run, key) ==> Absent(Cluster.Run(pref, ids, c, run), key))
       <==> NoPush(pref(key), c, key) && NoReplication(pref(key), c, key)
  {
    hide GoodPrefs, ViewsOk, MayPush, MayReplicate, Absent, NoSet, Quiet;
    if NoPush(pref(key), c, key) && NoReplication(pref(key), c, key) {
      forall run | NoSetRun(run, key) ensures Absent(Cluster.Run(pref, ids, c, run), key) {
        RunStaysAway(pref, ids, c, run, key);
      }
    } else if !NoPush(pref(key), c, key) {
      var run := PushComesBack(pref, ids, c, key);
      QuietIsNoSet(run, key);
      assert NoSetRun(run, key) && !Absent(Cluster.Run(pref, ids, c, run), key);
    } else {
      var n :| n in c.nodes && c.nodes[n].up && MayReplicate(pref(key), n, c.nodes[n], key);
      var run := SetIsReplicated(pref, ids, c, n, key);
      assert NoSetRun(run, key) && !Absent(Cluster.Run(pref, ids, c, run), key);
    }
  }

  /** Without crashes and replications of the key the pushes alone decide. */
  lemma QuietDeletionIsFinalIff(pref: Prefs, ids: set<string>, c: State, key: string)
    requires GoodPrefs(pref, ids) && ViewsOk(c, ids) && Absent(c, key)
    ensures (forall run :: QuietRun(run, key) ==> Absent(Cluster.Run(pref, ids, c, run), key))
       <==> NoPush(pref(key), c, key)
  {
    hide GoodPrefs, ViewsOk, MayPush, Absent, NoSet, Quiet;
    if NoPush(pref(key), c, key) {
      forall run | QuietRun(run, key) ensures Absent(Cluster.Run(pref, ids, c, run), key) {
        QuietIsNoSet(run, key);
        RunStaysAway(pref, ids, c, run, key);
      }
    } else {
      var run := PushComesBack(pref, ids, c, key);
      assert QuietRun(run, key) && !Absent(Cluster.Run(pref, ids, c, run), key);
    }
  }

  lemma QuietIsNoSet(run: seq<Event>, key: string)
    requires QuietRun(run, key)
    ensures NoSetRun(run, key)
  {}

  lemma PushComesBack(pref: Prefs, ids: set<string>, c: State, key: string) returns (run: seq<Event>)
    requires GoodPrefs(pref, ids) && ViewsOk(c, ids) && !NoPush(pref(key), c, key)
    ensures QuietRun(run, key) && !Absent(Cluster.Run(pref, ids, c, run), key)
  {
    hide GoodPrefs, ViewsOk, MayPush, Absent, Quiet;
    if p :| p in c.pushes && p.key == key && p.to in c.nodes {
      var i :| 0 <= i < |c.pushes| && c.pushes[i] == p;
      run := PushArrives(pref, ids, c, i, key);
    } else {
      var n :| n in c.nodes && c.nodes[n].up && MayPush(pref(key), n, c.nodes[n], key);
      run := SnapshotIsPushed(pref, ids, c, n, key);
    }
  }
}
