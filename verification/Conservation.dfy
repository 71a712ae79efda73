/** Rebalancing never loses the last copy of a key nor invents a value: every push goes to a node
    strictly earlier in the key's clockwise order, so whenever a sender deletes its copy some
    earlier node holds one that no outstanding delete can remove without a still earlier holder. */
module Conservation {
  import opened Text
  import opened StoreSpec
  import opened Wire
  import opened NodeSpec
  import opened Preference
  import opened Cluster

  // What is claimed of one key: its clockwise order, the values it may have, and until when its
  // copies last (None: forever).
  datatype Claim = Claim(key: string, order: seq<string>, values: set<string>, until: Option<int>)

  predicate Outlasts(e: Entry, until: Option<int>) {
    e.expiresAt.None? || (until.Some? && e.expiresAt.value >= until.value)
  }

  predicate Within(now: int, until: Option<int>) {
    until.Some? ==> now <= until.value
  }

  // Each push rounds a remaining time down to whole seconds.
  function Sooner(until: Option<int>, pushes: nat): Option<int> {
    if until.None? then None else Some(until.value - pushes * (SECOND - 1))
  }

  // Every copy is a good one, unless it has expired; of a key without expiry there is no such copy.
  predicate EntryOk(e: Entry, k: Claim, now: int) {
    (k.until.Some? && Expired(e, now)) || (e.value in k.values && Outlasts(e, k.until))
  }

  predicate TableOk(t: Table, k: Claim, now: int) {
    k.key in t ==> EntryOk(t[k.key], k, now)
  }

  ghost predicate JobsOk(jobs: seq<Job>, k: Claim) {
    forall j :: 0 <= j < |jobs| && k.key in jobs[j].todo ==> jobs[j].todo[k.key] in k.values
  }

  ghost predicate NodeOk(node: Node, k: Claim, now: int) {
    node.up ==> TableOk(node.table, k, now) && JobsOk(node.jobs, k)
  }

  // A push of the key goes earlier in its order, and what it leaves behind is a good copy.
  predicate PushOk(p: Pushed, k: Claim, now: int) {
    p.key == k.key ==>
      && p.value in k.values
      && (p.seconds > 0 ==> k.until.Some? && now + p.seconds * SECOND >= k.until.value)
      && p.from in k.order && p.to in k.order && Rank(k.order, p.to) < Rank(k.order, p.from)
  }

  // Every copy of the key, and every value a migration has yet to push or is pushing, is good.
  ghost predicate CopiesOk(c: State, k: Claim, now: int) {
    && (forall n :: n in c.nodes ==> NodeOk(c.nodes[n], k, now))
    && (forall p :: p in c.pushes ==> PushOk(p, k, now))
  }

  predicate Holder(node: Node, k: Claim) {
    node.up && k.key in node.table && Outlasts(node.table[k.key], k.until)
  }

  ghost predicate HeldBefore(c: State, n: string, k: Claim) {
    && n in k.order
    && exists m :: m in c.nodes && Holder(c.nodes[m], k) && m in k.order && Rank(k.order, m) < Rank(k.order, n)
  }

  ghost predicate Held(c: State, k: Claim) {
    exists m :: m in c.nodes && Holder(c.nodes[m], k)
  }

  predicate AboutToDelete(node: Node, k: Claim) {
    node.up && k.key in node.acked
  }

  // Some node holds the key, and one before each node that is about to delete its copy.
  ghost predicate Backed(c: State, k: Claim) {
    && Held(c, k)
    && (forall n :: n in c.nodes && AboutToDelete(c.nodes[n], k) ==> HeldBefore(c, n, k))
  }

  // ---------------------------------------------------------------- later, and with fewer promises

  predicate Weaker(k: Claim, k': Claim) {
    && k'.key == k.key && k'.order == k.order && k'.values == k.values
    && (k.until.None? ==> k'.until.None?)
    && (k.until.Some? ==> k'.until.Some? && k'.until.value <= k.until.value)
  }

  lemma NodeStaysOk(node: Node, k: Claim, k': Claim, now: int, now': int)
    requires NodeOk(node, k, now) && Weaker(k, k') && (k.until.None? || now <= now')
    ensures NodeOk(node, k', now')
    ensures Holder(node, k) ==> Holder(node, k')
  {}

  lemma CopiesStayOk(c: State, k: Claim, now: int, now': int)
    requires CopiesOk(c, k, now) && (k.until.None? || now <= now')
    ensures CopiesOk(c, k, now')
  {
    forall n | n in c.nodes ensures NodeOk(c.nodes[n], k, now') {
      NodeStaysOk(c.nodes[n], k, k, now, now');
    }
  }

  // ---------------------------------------------------------------- steps that take no good copy away

  // What a step may do to a node: keep good copies, and plan no further delete.
  ghost predicate Calm(a: Node, b: Node, k: Claim, k': Claim, now: int) {
    && NodeOk(b, k', now)
    && (Holder(a, k) ==> Holder(b, k'))
    && (AboutToDelete(b, k') ==> AboutToDelete(a, k))
  }

  ghost predicate CalmStep(c: State, c': State, k: Claim, k': Claim, now: int) {
    && c'.nodes.Keys == c.nodes.Keys
    && (forall n :: n in c.nodes ==> Calm(c.nodes[n], c'.nodes[n], k, k', now))
    && (forall p :: p in c'.pushes ==> PushOk(p, k', now))
  }

  lemma CalmStepKeeps(c: State, c': State, k: Claim, k': Claim, now: int)
    requires CalmStep(c, c', k, k', now) && Weaker(k, k')
    ensures CopiesOk(c', k', now)
    ensures Held(c, k) ==> Held(c', k')
    ensures Backed(c, k) ==> Backed(c', k')
  {
    hide NodeOk, Holder, AboutToDelete, PushOk;
    if Held(c, k) {
      var m :| m in c.nodes && Holder(c.nodes[m], k);
      assert Holder(c'.nodes[m], k');
    }
    if Backed(c, k) {
      forall n | n in c'.nodes && AboutToDelete(c'.nodes[n], k') ensures HeldBefore(c', n, k') {
        assert HeldBefore(c, n, k);
        var m :| m in c.nodes && Holder(c.nodes[m], k) && m in k.order && Rank(k.order, m) < Rank(k.order, n);
        assert Holder(c'.nodes[m], k');
      }
    }
  }

  lemma SameIsCalm(a: Node, k: Claim, k': Claim, now: int)
    requires NodeOk(a, k, now) && Weaker(k, k')
    ensures Calm(a, a, k, k', now)
  {
    NodeStaysOk(a, k, k', now, now);
  }

  // A change of one node only.
  lemma CalmAtNode(c: State, n: string, node: Node, k: Claim, k': Claim, now: int)
    requires CopiesOk(c, k, now) && n in c.nodes && Calm(c.nodes[n], node, k, k', now) && Weaker(k, k')
    requires forall p :: p in c.pushes ==> PushOk(p, k', now)
    ensures CalmStep(c, WithNode(c, n, node), k, k', now)
  {
    hide NodeOk, Calm, PushOk;
    forall m | m in c.nodes && m != n ensures Calm(c.nodes[m], c.nodes[m], k, k', now) {
      SameIsCalm(c.nodes[m], k, k', now);
    }
  }

  // Same as far as the key is concerned.
  ghost predicate Unconcerned(a: Node, b: Node, key: string) {
    && b.up == a.up && b.jobs == a.jobs
    && (key in b.table <==> key in a.table) && (key in a.table ==> b.table[key] == a.table[key])
    && (key in b.acked ==> key in a.acked)
  }

  lemma UnconcernedIsCalm(c: State, c': State, k: Claim, now: int)
    requires CopiesOk(c, k, now) && c'.nodes.Keys == c.nodes.Keys && c'.pushes == c.pushes
    requires forall n :: n in c.nodes ==> Unconcerned(c.nodes[n], c'.nodes[n], k.key)
    ensures CalmStep(c, c', k, k, now)
  {
    hide PushOk;
    forall n | n in c.nodes ensures Calm(c.nodes[n], c'.nodes[n], k, k, now) {}
  }

  // ---------------------------------------------------------------- the steps of a push

  // The claim after a step: a push of the key may bring its expiry forward.
  function ClaimAfter(k: Claim, s: Step): Claim {
    if s.Send? && s.key == k.key then k.(until := Sooner(k.until, 1)) else k
  }

  lemma SentPushIsOk(pref: Prefs, ids: set<string>, c: State, n: string, j: nat, key: string, k: Claim, now: int)
    requires GoodPrefs(pref, ids) && ViewsOk(c, ids) && k.order == pref(k.key) && CopiesOk(c, k, now)
    requires n in c.nodes && c.nodes[n].up && j < |c.nodes[n].jobs| && key in c.nodes[n].jobs[j].todo
    requires OwnerAt(pref, c, n, key) != n
    ensures PushOk(Pushed(n, OwnerAt(pref, c, n, key), key, c.nodes[n].jobs[j].todo[key],
                          RemainingSeconds(c.nodes[n].table, key, now), true),
                   k.(until := Sooner(k.until, 1)), now)
  {
    if key == k.key {
      OwnerIsEarlier(pref, ids, c, n, key);
      assert NodeOk(c.nodes[n], k, now);
    }
  }

  lemma SendIsCalm(pref: Prefs, ids: set<string>, c: State, n: string, j: nat, key: string, k: Claim, now: int)
    requires GoodPrefs(pref, ids) && ViewsOk(c, ids) && k.order == pref(k.key) && CopiesOk(c, k, now)
    requires n in c.nodes && c.nodes[n].up && j < |c.nodes[n].jobs| && key in c.nodes[n].jobs[j].todo
    ensures CalmStep(c, SendPush(pref, c, n, j, key, now), k, ClaimAfter(k, Send(n, j, key)), now)
  {
    var k' := ClaimAfter(k, Send(n, j, key));
    forall p | p in c.pushes ensures PushOk(p, k', now) {}
    VisitIsCalm(c.nodes[n], j, key, k, k', now);
    if OwnerAt(pref, c, n, key) != n {
      SentPushIsOk(pref, ids, c, n, j, key, k, now);
    }
    hide Calm, NodeOk, PushOk, GoodPrefs, RemainingSeconds, OwnerAt, MustMove, Visited;
    CalmAtNode(c, n, Visited(c.nodes[n], j, key), k, k', now);
  }

  lemma VisitIsCalm(node: Node, j: nat, key: string, k: Claim, k': Claim, now: int)
    requires NodeOk(node, k, now) && Weaker(k, k') && j < |node.jobs|
    ensures Calm(node, Visited(node, j, key), k, k', now)
  {}

  lemma DeliveryIsCalm(c: State, to: string, p: Pushed, k: Claim, now: int)
    requires CopiesOk(c, k, now) && PushOk(p, k, now) && to in c.nodes && c.nodes[to].up
    ensures var c' := Deliver(c, to, PushRequest(p.key, p.value, p.seconds), now);
      CalmStep(c, c', k, k, now) && (p.key == k.key ==> Holder(c'.nodes[to], k))
  {
    var c' := Deliver(c, to, PushRequest(p.key, p.value, p.seconds), now);
    assert NodeOk(c.nodes[to], k, now);
    assert Calm(c.nodes[to], c'.nodes[to], k, k, now);
    hide Calm, NodeOk, PushOk, ApplyLocal, PushRequest;
    CalmAtNode(c, to, c'.nodes[to], k, k, now);
  }

  function Acked(node: Node, key: string): Node {
    node.(acked := node.acked + multiset{key})
  }

  // The reply to a push: its receiver holds the key, and comes before its sender.
  lemma AckKeeps(c: State, p: Pushed, k: Claim, now: int)
    requires CopiesOk(c, k, now) && PushOk(p, k, now) && p.from in c.nodes && p.to in c.nodes
    requires p.key == k.key ==> Holder(c.nodes[p.to], k)
    ensures var c' := WithNode(c, p.from, Acked(c.nodes[p.from], p.key));
      CopiesOk(c', k, now) && (Backed(c, k) ==> Backed(c', k))
  {
    var c' := WithNode(c, p.from, Acked(c.nodes[p.from], p.key));
    forall n | n in c.nodes
      ensures NodeOk(c'.nodes[n], k, now)
      ensures Holder(c'.nodes[n], k) <==> Holder(c.nodes[n], k)
      ensures AboutToDelete(c'.nodes[n], k) && !(n == p.from && p.key == k.key) ==> AboutToDelete(c.nodes[n], k)
    {
      assert NodeOk(c.nodes[n], k, now);
    }
    hide NodeOk, Holder, AboutToDelete;
    if Backed(c, k) {
      var m :| m in c.nodes && Holder(c.nodes[m], k);
      assert Holder(c'.nodes[m], k);
      forall n | n in c'.nodes && AboutToDelete(c'.nodes[n], k) ensures HeldBefore(c', n, k) {
        if n == p.from && p.key == k.key {
          assert Holder(c'.nodes[p.to], k);
        } else {
          var m :| m in c.nodes && Holder(c.nodes[m], k) && m in k.order && Rank(k.order, m) < Rank(k.order, n);
          assert Holder(c'.nodes[m], k);
        }
      }
    }
  }

  lemma ArriveKeeps(c: State, i: nat, delivery: Delivery, k: Claim, now: int)
    requires CopiesOk(c, k, now) && i < |c.pushes|
    ensures var c' := ArrivePush(c, i, delivery, now);
      CopiesOk(c', k, now) && (Backed(c, k) ==> Backed(c', k))
  {
    hide NodeOk, PushOk, Holder, Deliver, AboutToDelete, Without;
    var p, c1 := c.pushes[i], c.(pushes := Without(c.pushes, i));
    assert CopiesOk(c1, k, now) && (Backed(c, k) ==> Backed(c1, k));
    if delivery != Lost && p.to in c.nodes && c.nodes[p.to].up {
      var c2 := Deliver(c1, p.to, PushRequest(p.key, p.value, p.seconds), now);
      DeliveryIsCalm(c1, p.to, p, k, now);
      CalmStepKeeps(c1, c2, k, k, now);
      if p.from in c.nodes {
        AckKeeps(c2, p, k, now);
      }
    }
  }

  // A delete after a reply: a holder before the deleting node takes its place everywhere.
  lemma DeleteKeeps(c: State, n: string, k: Claim, now: int)
    requires CopiesOk(c, k, now) && n in c.nodes && AboutToDelete(c.nodes[n], k)
    ensures var c' := WithNode(c, n, Deleted(c.nodes[n], k.key));
      CopiesOk(c', k, now) && (Backed(c, k) ==> Backed(c', k))
  {
    var c' := WithNode(c, n, Deleted(c.nodes[n], k.key));
    forall m | m in c.nodes
      ensures NodeOk(c'.nodes[m], k, now)
      ensures m != n && Holder(c.nodes[m], k) ==> Holder(c'.nodes[m], k)
      ensures AboutToDelete(c'.nodes[m], k) ==> AboutToDelete(c.nodes[m], k)
    {
      assert NodeOk(c.nodes[m], k, now);
    }
    hide NodeOk, Holder, AboutToDelete;
    if Backed(c, k) {
      var h :| h in c.nodes && Holder(c.nodes[h], k) && h in k.order && Rank(k.order, h) < Rank(k.order, n);
      assert Holder(c'.nodes[h], k);
      forall m | m in c'.nodes && AboutToDelete(c'.nodes[m], k) ensures HeldBefore(c', m, k) {
        assert HeldBefore(c, m, k);
        var h' :| h' in c.nodes && Holder(c.nodes[h'], k) && h' in k.order && Rank(k.order, h') < Rank(k.order, m);
        if h' != n {
          assert Holder(c'.nodes[h'], k);
        }
      }
    }
  }

  // ---------------------------------------------------------------- all steps

  // Anything may go on except writes of the key and crashes, which destroy copies.
  predicate Quiet(s: Step, key: string) {
    match s
    case ClientSet(_, k, _, _) => k != key
    case ClientDel(_, k) => k != key
    case Replicate(_, task, _) => task.key != key
    case Crash(_) => false
    case _ => true
  }

  lemma WriteIsUnconcerned(c: State, n: string, task: Task, key: string, now: int)
    requires n in c.nodes && task.key != key
    ensures forall m :: m in c.nodes ==> Unconcerned(c.nodes[m], WriteAt(c, n, task, now).nodes[m], key)
    ensures WriteAt(c, n, task, now).pushes == c.pushes
  {}

  lemma DeliveryIsUnconcerned(c: State, n: string, r: Request, key: string, now: int)
    requires n in c.nodes && (r.LocalSet? || r.LocalDel?) && r.key != key
    ensures var c' := Deliver(c, n, r, now);
      c'.pushes == c.pushes && forall m :: m in c.nodes ==> Unconcerned(c.nodes[m], c'.nodes[m], key)
  {}

  lemma ReplicaRequestKey(task: Task)
    ensures var r := ReplicaRequest(task.key, task.value, task.ttl, task.del);
      r.key == task.key && if task.del then r.LocalDel? else r.LocalSet?
  {}

  lemma UnconcernedTwice(a: State, b: State, c: State, key: string)
    requires a.nodes.Keys == b.nodes.Keys == c.nodes.Keys
    requires forall m :: m in a.nodes ==> Unconcerned(a.nodes[m], b.nodes[m], key)
    requires forall m :: m in a.nodes ==> Unconcerned(b.nodes[m], c.nodes[m], key)
    ensures forall m :: m in a.nodes ==> Unconcerned(a.nodes[m], c.nodes[m], key)
  {}

  lemma FinishIsUnconcerned(pref: Prefs, c: State, n: string, task: Task, delivered: bool, key: string, now: int)
    requires n in c.nodes && task.key != key
    ensures var c' := FinishTask(pref, c, n, task, delivered, now);
      c'.pushes == c.pushes && forall m :: m in c.nodes ==> Unconcerned(c.nodes[m], c'.nodes[m], key)
  {
    hide ReplicaAt, Deliver, ReplicaRequest;
    var c1 := WithNode(c, n, c.nodes[n].(tasks := c.nodes[n].tasks - multiset{task}));
    var target, r := ReplicaAt(pref, c, n, task.key), ReplicaRequest(task.key, task.value, task.ttl, task.del);
    assert (r.LocalSet? || r.LocalDel?) && r.key == task.key by { ReplicaRequestKey(task); }
    assert forall m :: m in c.nodes ==> Unconcerned(c.nodes[m], c1.nodes[m], key);
    if target.Some? && target.value in c1.nodes {
      DeliveryIsUnconcerned(c1, target.value, r, key, now);
      UnconcernedTwice(c, c1, Deliver(c1, target.value, r, now), key);
    }
    hide Unconcerned;
  }

  lemma OtherTrafficIsCalm(pref: Prefs, ids: set<string>, c: State, e: Event, k: Claim)
    requires GoodPrefs(pref, ids) && ViewsOk(c, ids) && CopiesOk(c, k, e.now) && Quiet(e.step, k.key)
    requires e.step.ClientSet? || e.step.ClientDel? || e.step.Replicate?
    ensures CalmStep(c, Next(pref, ids, c, e), k, k, e.now)
  {
    assert c.nodes.Keys == ids;
    hide GoodPrefs, ViewsOk, CopiesOk, WriteAt, FinishTask, Token, Unconcerned, CalmStep, Route;
    forall n | n in c.nodes ensures Unconcerned(c.nodes[n], c.nodes[n], k.key) {
      UnconcernedWithItself(c.nodes[n], k.key);
    }
    match e.step
    case ClientSet(entry, key, value, ttl) =>
      if entry in c.nodes && Route(pref, ids, c, entry, key).Some? {
        WriteIsUnconcerned(c, Route(pref, ids, c, entry, key).value, Task(key, value, ttl, false), k.key, e.now);
      }
      UnconcernedIsCalm(c, Next(pref, ids, c, e), k, e.now);
    case ClientDel(entry, key) =>
      if entry in c.nodes && Route(pref, ids, c, entry, key).Some? {
        WriteIsUnconcerned(c, Route(pref, ids, c, entry, key).value, Task(key, "", 0, true), k.key, e.now);
      }
      UnconcernedIsCalm(c, Next(pref, ids, c, e), k, e.now);
    case Replicate(n, task, delivered) =>
      if n in c.nodes {
        FinishIsUnconcerned(pref, c, n, task, delivered, k.key, e.now);
      }
      UnconcernedIsCalm(c, Next(pref, ids, c, e), k, e.now);
  }

  lemma UnconcernedWithItself(node: Node, key: string)
    ensures Unconcerned(node, node, key)
  {}

  // Steps of one node.
  lemma LocalStepIsCalm(pref: Prefs, ids: set<string>, c: State, e: Event, k: Claim)
    requires GoodPrefs(pref, ids) && ViewsOk(c, ids) && CopiesOk(c, k, e.now)
    requires e.step.ViewChange? || e.step.StartMigration? || e.step.Restart?
      || (e.step.DeletePushed? && e.step.key != k.key)
    ensures CalmStep(c, Next(pref, ids, c, e), k, k, e.now)
  {
    var n, c' := e.step.n, Next(pref, ids, c, e);
    hide Calm, NodeOk, PushOk, GoodPrefs, Snapshot, Deleted, Sweep;
    if n in c.nodes {
      LocalNodeIsCalm(pref, ids, c, e, k);
      assert c' == WithNode(c, n, c'.nodes[n]);
      CalmAtNode(c, n, c'.nodes[n], k, k, e.now);
    } else {
      forall m | m in c.nodes ensures Calm(c.nodes[m], c.nodes[m], k, k, e.now) {
        SameIsCalm(c.nodes[m], k, k, e.now);
      }
    }
  }

  lemma LocalNodeIsCalm(pref: Prefs, ids: set<string>, c: State, e: Event, k: Claim)
    requires GoodPrefs(pref, ids) && ViewsOk(c, ids)
    requires e.step.ViewChange? || e.step.StartMigration? || e.step.Restart?
      || (e.step.DeletePushed? && e.step.key != k.key)
    requires e.step.n in c.nodes && NodeOk(c.nodes[e.step.n], k, e.now)
    ensures Calm(c.nodes[e.step.n], Next(pref, ids, c, e).nodes[e.step.n], k, k, e.now)
  {
    hide GoodPrefs, ViewsOk, Calm, NodeOk, Snapshot, Deleted;
    var node := c.nodes[e.step.n];
    SameIsCalm(node, k, k, e.now);
    match e.step
    case ViewChange(_, view) => ViewIsCalm(node, view, k, e.now);
    case StartMigration(_, only) => SnapshotIsCalm(node, only, k, e.now);
    case Restart(_) =>
      if !node.up {
        FreshIsCalm(node, c.nodes.Keys, k, e.now);
      }
    case DeletePushed(_, key) => OtherDeleteIsCalm(node, key, k, e.now);
  }

  lemma ViewIsCalm(node: Node, view: set<string>, k: Claim, now: int)
    requires NodeOk(node, k, now)
    ensures Calm(node, node.(view := view), k, k, now)
  {}

  lemma SnapshotIsCalm(node: Node, only: Option<string>, k: Claim, now: int)
    requires NodeOk(node, k, now)
    ensures node.up ==> Calm(node, node.(jobs := node.jobs + [Job(only, Snapshot(node.table, now))]), k, k, now)
  {}

  lemma FreshIsCalm(node: Node, view: set<string>, k: Claim, now: int)
    requires !node.up
    ensures Calm(node, Fresh(view), k, k, now)
  {}

  lemma OtherDeleteIsCalm(node: Node, key: string, k: Claim, now: int)
    requires NodeOk(node, k, now) && key != k.key
    ensures Calm(node, Deleted(node, key), k, k, now)
  {}

  lemma SweepKeeps(c: State, n: string, k: Claim, now: int)
    requires CopiesOk(c, k, now) && n in c.nodes
    ensures var c' := WithNode(c, n, c.nodes[n].(table := Sweep(c.nodes[n].table, now)));
      CopiesOk(c', k, now) && (Backed(c, k) && Within(now, k.until) ==> Backed(c', k))
  {
    var node' := c.nodes[n].(table := Sweep(c.nodes[n].table, now));
    assert NodeOk(c.nodes[n], k, now);
    assert NodeOk(node', k, now);
    if Within(now, k.until) {
      assert Calm(c.nodes[n], node', k, k, now);
      hide NodeOk, Calm, PushOk, Backed, Sweep;
      CalmAtNode(c, n, node', k, k, now);
      CalmStepKeeps(c, WithNode(c, n, node'), k, k, now);
    }
  }

  lemma StepKeeps(pref: Prefs, ids: set<string>, c: State, e: Event, k: Claim)
    requires GoodPrefs(pref, ids) && ViewsOk(c, ids) && k.order == pref(k.key)
    requires CopiesOk(c, k, e.now) && Quiet(e.step, k.key)
    ensures var c', k' := Next(pref, ids, c, e), ClaimAfter(k, e.step);
      CopiesOk(c', k', e.now) && (Backed(c, k) && Within(e.now, k'.until) ==> Backed(c', k'))
  {
    hide GoodPrefs, ViewsOk, CopiesOk, Backed, SendPush, ArrivePush, Sweep, Deleted, CalmStep, Held;
    var c', k' := Next(pref, ids, c, e), ClaimAfter(k, e.step);
    match e.step
    case Send(n, j, key) =>
      if n in c.nodes && c.nodes[n].up && j < |c.nodes[n].jobs| && key in c.nodes[n].jobs[j].todo {
        SendIsCalm(pref, ids, c, n, j, key, k, e.now);
        CalmStepKeeps(c, c', k, k', e.now);
      } else {
        WeakerKeeps(c, k, k', e.now);
      }
    case Arrive(i, delivery) =>
      if i < |c.pushes| {
        ArriveKeeps(c, i, delivery, k, e.now);
      }
    case DeletePushed(n, key) =>
      if key != k.key {
        LocalStepIsCalm(pref, ids, c, e, k);
        CalmStepKeeps(c, c', k, k, e.now);
      } else if n in c.nodes && AboutToDelete(c.nodes[n], k) {
        DeleteKeeps(c, n, k, e.now);
      }
    case SweepNode(n) =>
      if n in c.nodes && c.nodes[n].up {
        SweepKeeps(c, n, k, e.now);
      }
    case ClientSet(_, _, _, _) => OtherTrafficIsCalm(pref, ids, c, e, k); CalmStepKeeps(c, c', k, k, e.now);
    case ClientDel(_, _) => OtherTrafficIsCalm(pref, ids, c, e, k); CalmStepKeeps(c, c', k, k, e.now);
    case Replicate(_, _, _) => OtherTrafficIsCalm(pref, ids, c, e, k); CalmStepKeeps(c, c', k, k, e.now);
    case _ => LocalStepIsCalm(pref, ids, c, e, k); CalmStepKeeps(c, c', k, k, e.now);
  }

  lemma WeakerKeeps(c: State, k: Claim, k': Claim, now: int)
    requires CopiesOk(c, k, now) && Weaker(k, k')
    ensures CopiesOk(c, k', now) && (Backed(c, k) ==> Backed(c, k'))
  {
    forall n | n in c.nodes ensures Calm(c.nodes[n], c.nodes[n], k, k', now) {
      SameIsCalm(c.nodes[n], k, k', now);
    }
    hide Calm, NodeOk, Backed;
    CalmStepKeeps(c, c, k, k', now);
  }

  // ---------------------------------------------------------------- whole runs

  ghost predicate QuietRun(run: seq<Event>, key: string) {
    forall e :: e in run ==> Quiet(e.step, key)
  }

  // How many pushes of the key a run sends.
  function Sends(run: seq<Event>, key: string): nat
    decreases run
  {
    if run == [] then 0
    else (if run[0].step.Send? && run[0].step.key == key then 1 else 0) + Sends(run[1..], key)
  }

  // Clocks may differ from node to node as long as the key's copies never expire.
  ghost predicate Clocked(run: seq<Event>, start: int, until: Option<int>) {
    until.Some? ==> InTimeOrder(run, start)
  }

  lemma {:induction false} EndIsLast(run: seq<Event>, start: int)
    requires InTimeOrder(run, start)
    ensures start <= EndTime(run, start)
    decreases run
  {
    if run != [] {
      EndIsLast(run[1..], run[0].now);
      assert EndTime(run, start) == EndTime(run[1..], run[0].now);
    }
  }

  lemma {:induction false} RunKeeps(pref: Prefs, ids: set<string>, c: State, run: seq<Event>, k: Claim, start: int)
    requires GoodPrefs(pref, ids) && ViewsOk(c, ids) && k.order == pref(k.key)
    requires CopiesOk(c, k, start) && QuietRun(run, k.key) && Clocked(run, start, k.until)
    ensures var c', end := Cluster.Run(pref, ids, c, run), EndTime(run, start);
      var k' := k.(until := Sooner(k.until, Sends(run, k.key)));
      CopiesOk(c', k', end) && (Backed(c, k) && Within(end, k'.until) ==> Backed(c', k'))
    decreases run
  {
    hide Next, CopiesOk, Backed, GoodPrefs, ViewsOk, Quiet;
    if run == [] {
      assert k.(until := Sooner(k.until, 0)) == k;
    } else {
      var e, rest := run[0], run[1..];
      assert e in run;
      assert forall e :: e in rest ==> e in run;
      CopiesStayOk(c, k, start, e.now);
      StepKeeps(pref, ids, c, e, k);
      NextKeepsViews(pref, ids, c, e);
      var k1 := ClaimAfter(k, e.step);
      RunKeeps(pref, ids, Next(pref, ids, c, e), rest, k1, e.now);
      assert EndTime(run, start) == EndTime(rest, e.now);
      if k.until.Some? {
        EndIsLast(rest, e.now);
      }
    }
  }

  ghost predicate LiveSomewhere(c: State, key: string, now: int) {
    exists n :: n in c.nodes && c.nodes[n].up && Lookup(c.nodes[n].table, key, now).Some?
  }

  // Every live copy has one of the values and lasts; a key that never expires has no other copy.
  ghost predicate LiveCopies(c: State, key: string, values: set<string>, until: Option<int>, now: int) {
    forall n :: n in c.nodes && c.nodes[n].up && key in c.nodes[n].table ==>
      var e := c.nodes[n].table[key];
      (until.Some? && Expired(e, now)) || (e.value in values && Outlasts(e, until))
  }

  ghost predicate SnapshotValues(c: State, key: string, values: set<string>) {
    forall n, j :: n in c.nodes && c.nodes[n].up && 0 <= j < |c.nodes[n].jobs| && key in c.nodes[n].jobs[j].todo ==>
      c.nodes[n].jobs[j].todo[key] in values
  }

  // No push of the key is under way.
  ghost predicate Settled(c: State, key: string) {
    && (forall p :: p in c.pushes ==> p.key != key)
    && (forall n :: n in c.nodes ==> key !in c.nodes[n].acked)
  }

  lemma LiveIsHeld(c: State, k: Claim, now: int)
    requires CopiesOk(c, k, now) && LiveSomewhere(c, k.key, now)
    ensures Held(c, k)
  {
    var n :| n in c.nodes && c.nodes[n].up && Lookup(c.nodes[n].table, k.key, now).Some?;
    assert NodeOk(c.nodes[n], k, now);
  }

  lemma HeldIsLive(c: State, k: Claim, now: int)
    requires Held(c, k) && Within(now, k.until)
    ensures LiveSomewhere(c, k.key, now)
  {
    var n :| n in c.nodes && Holder(c.nodes[n], k);
    assert Lookup(c.nodes[n].table, k.key, now).Some?;
  }

  /** Rebalancing conserves keys. Start from any state with no push of the key under way. Let any
      number of migrations run, on nodes whose views disagree and change, with pushes delayed, lost,
      delivered unacknowledged or acknowledged, deletes that come as late as they like, restarts,
      sweeps and all traffic of other keys in between. Every live copy then still has one of the
      values the key had; and a live copy remains as long as the smallest expiry, less what each push
      sent may cost, has not passed; for a key without expiry forever, whatever the clocks say. */
  lemma RebalancingConservesKeys(pref: Prefs, ids: set<string>, c: State, run: seq<Event>, key: string,
                                 values: set<string>, until: Option<int>, start: int)
    requires GoodPrefs(pref, ids) && ViewsOk(c, ids) && QuietRun(run, key) && Clocked(run, start, until)
    requires LiveCopies(c, key, values, until, start) && SnapshotValues(c, key, values) && Settled(c, key)
    ensures var c', end, until' := Cluster.Run(pref, ids, c, run), EndTime(run, start), Sooner(until, Sends(run, key));
      && LiveCopies(c', key, values, until', end)
      && (LiveSomewhere(c, key, start) && Within(end, until') ==> LiveSomewhere(c', key, end))
  {
    var k := Claim(key, pref(key), values, until);
    var c', end := Cluster.Run(pref, ids, c, run), EndTime(run, start);
    var k' := k.(until := Sooner(until, Sends(run, key)));
    forall n | n in c.nodes ensures NodeOk(c.nodes[n], k, start) {}
    RunKeeps(pref, ids, c, run, k, start);
    forall n | n in c'.nodes ensures NodeOk(c'.nodes[n], k', end) {}
    hide GoodPrefs, ViewsOk, Settled, QuietRun, Clocked, SnapshotValues;
    if LiveSomewhere(c, key, start) && Within(end, k'.until) {
      LiveIsHeld(c, k, start);
      HeldIsLive(c', k', end);
    }
  }

  /** A key without expiry outlives all of this, however the nodes' clocks differ. */
  lemma PermanentKeysSurviveMigrations(pref: Prefs, ids: set<string>, c: State, run: seq<Event>, key: string,
                                       values: set<string>, now: int, now': int)
    requires GoodPrefs(pref, ids) && ViewsOk(c, ids) && QuietRun(run, key)
    requires LiveCopies(c, key, values, None, now) && SnapshotValues(c, key, values) && Settled(c, key)
    requires LiveSomewhere(c, key, now)
    ensures var c' := Cluster.Run(pref, ids, c, run);
      LiveCopies(c', key, values, None, now') && LiveSomewhere(c', key, now')
  {
    hide GoodPrefs, ViewsOk, QuietRun, SnapshotValues, Settled;
    RebalancingConservesKeys(pref, ids, c, run, key, values, None, now);
    var c' := Cluster.Run(pref, ids, c, run);
    var n :| n in c'.nodes && c'.nodes[n].up && Lookup(c'.nodes[n].table, key, EndTime(run, now)).Some?;
    assert Lookup(c'.nodes[n].table, key, now').Some?;
  }
}
