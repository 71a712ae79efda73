/** MIGRATE on every node puts each key on exactly its owner. */
module Placement {
  import opened Text
  import opened StoreSpec
  import opened Wire
  import opened NodeSpec
  import opened Preference
  import opened Cluster
  import opened Conservation
  import opened Reads

  // The nodes of view are up and agree that they are the members; the rest are down.
  ghost predicate Agreed(c: State, view: set<string>) {
    && view <= c.nodes.Keys
    && forall n :: n in c.nodes ==> (c.nodes[n].up <==> n in view) && (n in view ==> c.nodes[n].view == view)
  }

  function OwnerOf(pref: Prefs, view: set<string>, key: string): string {
    OwnerIn(pref(key), view)
  }

  // Every live copy and every snapshot agrees with the cluster-wide map.
  ghost predicate NodeAgrees(node: Node, all: map<string, string>, now: int) {
    && (forall k :: Lookup(node.table, k, now).Some? ==> k in all && Lookup(node.table, k, now).value == all[k])
    && (forall j, k :: 0 <= j < |node.jobs| && k in node.jobs[j].todo ==> k in all && node.jobs[j].todo[k] == all[k])
  }

  ghost predicate OnlyMigrates(node: Node) {
    forall j :: 0 <= j < |node.jobs| ==> node.jobs[j].only.None?
  }

  ghost predicate PushAgrees(pref: Prefs, view: set<string>, p: Pushed, all: map<string, string>) {
    && p.key in all && p.value == all[p.key] && p.waiting
    && p.from in view && p.to in view && p.to == OwnerOf(pref, view, p.key)
  }

  // A key node n still has to push, is pushing, or is about to delete.
  ghost predicate Leaving(n: string, node: Node, pushes: seq<Pushed>, k: string) {
    || (exists j :: 0 <= j < |node.jobs| && k in node.jobs[j].todo)
    || (exists i :: 0 <= i < |pushes| && pushes[i].from == n && pushes[i].key == k)
    || k in node.acked
  }

  // A node that has started its MIGRATE lists foreign keys only while they are leaving.
  ghost predicate OnTheirWay(pref: Prefs, view: set<string>, n: string, node: Node, pushes: seq<Pushed>, now: int) {
    forall k :: k in Snapshot(node.table, now) && OwnerOf(pref, view, k) != n ==> Leaving(n, node, pushes, k)
  }

  ghost predicate NodeInv(pref: Prefs, view: set<string>, n: string, node: Node, pushes: seq<Pushed>,
                          all: map<string, string>, started: set<string>, now: int) {
    NodeAgrees(node, all, now) && OnlyMigrates(node) && (n in started ==> OnTheirWay(pref, view, n, node, pushes, now))
  }

  ghost predicate Inv(pref: Prefs, c: State, view: set<string>, all: map<string, string>, started: set<string>,
                      now: int) {
    && Agreed(c, view)
    && (forall n :: n in view ==> NodeInv(pref, view, n, c.nodes[n], c.pushes, all, started, now))
    && (forall p :: p in c.pushes ==> PushAgrees(pref, view, p, all))
  }

  predicate IsMigrateStep(s: Step, view: set<string>) {
    match s
    case StartMigration(n, only) => only.None? && n in view
    case Send(_, _, _) => true
    case Arrive(_, delivery) => delivery == Acknowledged
    case DeletePushed(_, _) => true
    case SweepNode(_) => true
    case _ => false
  }

  function StartedBy(s: Step): set<string> {
    if s.StartMigration? then {s.n} else {}
  }

  ghost predicate MigrateRun(run: seq<Event>, view: set<string>) {
    forall e :: e in run ==> IsMigrateStep(e.step, view)
  }

  function Started(run: seq<Event>): set<string>
    decreases run
  {
    if run == [] then {} else StartedBy(run[0].step) + Started(run[1..])
  }

  // No migration has anything left to do.
  ghost predicate Finished(c: State) {
    && c.pushes == []
    && forall n :: n in c.nodes ==>
         c.nodes[n].acked == multiset{} && forall j :: 0 <= j < |c.nodes[n].jobs| ==> c.nodes[n].jobs[j].todo == map[]
  }

  // ---------------------------------------------------------------- one node

  lemma OnTheirWayIf(pref: Prefs, view: set<string>, n: string, node: Node, node': Node, pushes: seq<Pushed>,
                     pushes': seq<Pushed>, now: int, now': int)
    requires OnTheirWay(pref, view, n, node, pushes, now)
    requires forall k :: k in Snapshot(node'.table, now') && OwnerOf(pref, view, k) != n ==>
      k in Snapshot(node.table, now) && (Leaving(n, node, pushes, k) ==> Leaving(n, node', pushes', k))
    ensures OnTheirWay(pref, view, n, node', pushes', now')
  {}

  lemma LaterNodeInv(pref: Prefs, view: set<string>, n: string, node: Node, pushes: seq<Pushed>,
                     all: map<string,
                     string>, started: set<string>, now: int, now': int)
    requires NodeInv(pref, view, n, node, pushes, all, started, now) && now <= now'
    ensures NodeInv(pref, view, n, node, pushes, all, started, now')
  {
    assert forall k :: Lookup(node.table, k, now').Some? ==> Lookup(node.table, k, now') == Lookup(node.table, k, now);
    assert forall k :: k in Snapshot(node.table, now') ==> k in Snapshot(node.table, now);
    hide Lookup, Snapshot, OwnerOf, Leaving;
  }

  lemma MorePushes(n: string, node: Node, pushes: seq<Pushed>, p: Pushed, k: string)
    ensures Leaving(n, node, pushes, k) || (p.from == n && p.key == k) ==> Leaving(n, node, pushes + [p], k)
  {
    var more := pushes + [p];
    assert more[|pushes|] == p;
    assert forall i :: 0 <= i < |pushes| ==> more[i] == pushes[i];
  }

  lemma OneLessPush(n: string, node: Node, pushes: seq<Pushed>, i: nat, k: string)
    requires i < |pushes|
    ensures Leaving(n, node, pushes, k) && !(pushes[i].from == n && pushes[i].key == k) ==>
      Leaving(n, node, Without(pushes, i), k)
  {
    var fewer := Without(pushes, i);
    assert forall j :: 0 <= j < i ==> fewer[j] == pushes[j];
    assert forall j :: i < j < |pushes| ==> fewer[j - 1] == pushes[j];
  }

  // ---------------------------------------------------------------- the steps

  lemma StartKeepsInv(pref: Prefs, c: State, view: set<string>, all: map<string, string>, started: set<string>,
                      n: string, now: int)
    requires Inv(pref, c, view, all, started, now) && n in view
    ensures Inv(pref, WithNode(c, n, StartedNode(c.nodes[n], now)), view, all, started + {n}, now)
  {
    hide NodeInv, PushAgrees, OwnerOf, Snapshot;
    StartAtNode(pref, view, n, c.nodes[n], c.pushes, all, started, now);
    forall m | m in view && m != n ensures NodeInv(pref, view, m, c.nodes[m], c.pushes, all, started + {n}, now) {
      OthersStarted(pref, view, m, c.nodes[m], c.pushes, all, started, n, now);
    }
  }

  lemma OthersStarted(pref: Prefs, view: set<string>, m: string, node: Node, pushes: seq<Pushed>,
                      all: map<string,
                      string>, started: set<string>, n: string, now: int)
    requires NodeInv(pref, view, m, node, pushes, all, started, now) && m != n
    ensures NodeInv(pref, view, m, node, pushes, all, started + {n}, now)
  {}

  function StartedNode(node: Node, now: int): (node': Node)
    ensures node' == node.(jobs := node'.jobs)
  {
    node.(jobs := node.jobs + [Job(None, Snapshot(node.table, now))])
  }

  lemma StartAtNode(pref: Prefs, view: set<string>, n: string, node: Node, pushes: seq<Pushed>,
                    all: map<string,
                    string>, started: set<string>, now: int)
    requires NodeInv(pref, view, n, node, pushes, all, started, now)
    ensures NodeInv(pref, view, n, StartedNode(node, now), pushes, all, started + {n}, now)
  {
    var node', snapshot := StartedNode(node, now), Snapshot(node.table, now);
    assert forall k :: k in snapshot ==> Lookup(node.table, k, now) == Some(snapshot[k]);
    hide OwnerOf, Snapshot, Lookup;
    assert node'.jobs[|node.jobs|] == Job(None, snapshot);
    forall k | k in snapshot ensures Leaving(n, node', pushes, k) {
      assert k in node'.jobs[|node.jobs|].todo;
    }
  }

  lemma SendKeepsInv(pref: Prefs, ids: set<string>, c: State, view: set<string>, all: map<string, string>,
                     started: set<string>, n: string, j: nat, k: string, now: int)
    requires GoodPrefs(pref, ids) && ViewsOk(c, ids) && Inv(pref, c, view, all, started, now)
    requires n in c.nodes && c.nodes[n].up && j < |c.nodes[n].jobs| && k in c.nodes[n].jobs[j].todo
    ensures Inv(pref, SendPush(pref, c, n, j, k, now), view, all, started, now)
  {
    var owner, node, c' := OwnerOf(pref, view, k), c.nodes[n], SendPush(pref, c, n, j, k, now);
    var p := Pushed(n, owner, k, node.jobs[j].todo[k], RemainingSeconds(node.table, k, now), true);
    assert n in view && node.view == view && NodeInv(pref, view, n, node, c.pushes, all, started, now);
    OwnerIsEarlier(pref, ids, c, n, k);
    assert OwnerAt(pref, c, n, k) == owner && owner in view && node.jobs[j].only.None?;
    hide NodeInv, PushAgrees, OwnerOf, OwnerAt, GoodPrefs, ViewsOk, RemainingSeconds, Visited;
    assert c'.nodes == c.nodes[n := Visited(node, j, k)];
    assert c'.pushes == if owner == n then c.pushes else c.pushes + [p];
    hide SendPush;
    SendAtNode(pref, view, n, node, j, p, c.pushes, all, started, now);
    forall m | m in view ensures NodeInv(pref, view, m, c'.nodes[m], c'.pushes, all, started, now) {
      if m != n && owner != n {
        PushAtOther(pref, view, m, c.nodes[m], p, c.pushes, all, started, now);
      }
    }
    assert Agreed(c', view);
  }

  lemma PushAtOther(pref: Prefs, view: set<string>, m: string, node: Node, p: Pushed, pushes: seq<Pushed>,
                    all: map<string, string>, started: set<string>, now: int)
    requires NodeInv(pref, view, m, node, pushes, all, started, now)
    ensures NodeInv(pref, view, m, node, pushes + [p], all, started, now)
  {
    hide NodeAgrees, OnlyMigrates, OwnerOf, Snapshot, Leaving;
    forall k ensures Leaving(m, node, pushes, k) ==> Leaving(m, node, pushes + [p], k) {
      MorePushes(m, node, pushes, p, k);
    }
  }

  lemma SendAtNode(pref: Prefs, view: set<string>, n: string, node: Node, j: nat, p: Pushed, pushes: seq<Pushed>,
                   all: map<string, string>, started: set<string>, now: int)
    requires NodeInv(pref, view, n, node, pushes, all, started, now)
    requires j < |node.jobs| && p.key in node.jobs[j].todo && p.value == node.jobs[j].todo[p.key]
    requires p.from == n && p.waiting
    requires p.to == OwnerOf(pref, view, p.key) && p.to in view && n in view
    ensures var pushes' := if p.to == n then pushes else pushes + [p];
      NodeInv(pref, view, n, Visited(node, j, p.key), pushes', all, started, now)
    ensures PushAgrees(pref, view, p, all)
  {
    hide OwnerOf, Snapshot, Lookup;
    var node', pushes' := Visited(node, j, p.key), if p.to == n then pushes else pushes + [p];
    forall k | Leaving(n, node, pushes, k) && OwnerOf(pref, view, k) != n ensures Leaving(n, node', pushes', k) {
      MorePushes(n, node', pushes, p, k);
      if k != p.key && exists i :: 0 <= i < |node.jobs| && k in node.jobs[i].todo {
        var i :| 0 <= i < |node.jobs| && k in node.jobs[i].todo;
        assert k in node'.jobs[i].todo;
      }
    }
    hide Leaving, NodeAgrees, OnlyMigrates;
    if n in started {
      OnTheirWayIf(pref, view, n, node, node', pushes, pushes', now, now);
    }
  }

  lemma ArriveKeepsInv(pref: Prefs, c: State, view: set<string>, all: map<string, string>, started: set<string>, i: nat,
                       now: int)
    requires Inv(pref, c, view, all, started, now) && i < |c.pushes|
    ensures Inv(pref, ArrivePush(c, i, Acknowledged, now), view, all, started, now)
  {
    var p, c' := c.pushes[i], ArrivePush(c, i, Acknowledged, now);
    assert PushAgrees(pref, view, p, all);
    ArrivedNodes(c, view, i, now);
    hide NodeInv, PushAgrees, OwnerOf, ArrivePush, Arrived, Without, Agreed;
    forall m | m in view ensures NodeInv(pref, view, m, c'.nodes[m], c'.pushes, all, started, now) {
      ArriveAtNode(pref, view, m, c.nodes[m], i, c.pushes, all, started, now);
    }
  }

  lemma ArrivedNodes(c: State, view: set<string>, i: nat, now: int)
    requires Agreed(c, view) && i < |c.pushes|
    requires c.pushes[i].waiting && c.pushes[i].from in view && c.pushes[i].to in view
    ensures var c' := ArrivePush(c, i, Acknowledged, now);
      && Agreed(c', view) && c'.pushes == Without(c.pushes, i)
      && forall m :: m in view ==> m in c.nodes && c'.nodes[m] == Arrived(c.nodes[m], m, c.pushes[i], now)
  {
    var p := c.pushes[i];
    assert c.nodes[p.to].up && c.nodes[p.from].up;
    ArriveEffect(c, i, now);
  }

  lemma ArriveEffect(c: State, i: nat, now: int)
    requires i < |c.pushes|
    requires var p := c.pushes[i];
      p.waiting && p.from in c.nodes && p.to in c.nodes && c.nodes[p.from].up && c.nodes[p.to].up
    ensures var c', p := ArrivePush(c, i, Acknowledged, now), c.pushes[i];
      && c'.pushes == Without(c.pushes, i) && c'.nodes.Keys == c.nodes.Keys
      && (forall m :: m in c.nodes && m != p.from && m != p.to ==> c'.nodes[m] == c.nodes[m])
      && c'.nodes[p.from] == Arrived(c.nodes[p.from], p.from, p, now)
      && c'.nodes[p.to] == Arrived(c.nodes[p.to], p.to, p, now)
  {
    hide ApplyLocal, PushRequest, Without;
    var p, c1 := c.pushes[i], c.(pushes := Without(c.pushes, i));
    var c2 := Deliver(c1, p.to, PushRequest(p.key, p.value, p.seconds), now);
    DeliverEffect(c1, p.to, PushRequest(p.key, p.value, p.seconds), now);
    hide Deliver;
    var acked := c2.nodes[p.from].(acked := c2.nodes[p.from].acked + multiset{p.key});
    assert ArrivePush(c, i, Acknowledged, now) == WithNode(c2, p.from, acked);
    hide ArrivePush;
  }

  lemma DeliverEffect(c: State, n: string, r: Request, now: int)
    requires n in c.nodes
    ensures var c' := Deliver(c, n, r, now);
      && c'.pushes == c.pushes
      && c'.nodes == c.nodes[n := c.nodes[n].(table := ApplyLocal(c.nodes[n].table, r, now))]
  {}

  // What an acknowledged push does to its receiver and to its sender.
  function Arrived(node: Node, m: string, p: Pushed, now: int): Node {
    var table := if m == p.to then ApplyLocal(node.table, PushRequest(p.key, p.value, p.seconds), now) else node.table;
    var acked := if m == p.from then node.acked + multiset{p.key} else node.acked;
    node.(table := table, acked := acked)
  }

  lemma DeliveredIsLive(t: Table, key: string, value: string, seconds: int, now: int)
    ensures var t' := ApplyLocal(t, PushRequest(key, value, seconds), now);
      && Lookup(t', key, now) == Some(value)
      && (forall k :: k != key ==> Lookup(t', k, now) == Lookup(t, k, now))
      && (forall k :: k != key ==> (k in Snapshot(t', now) <==> k in Snapshot(t, now)))
  {}

  lemma ArriveAtNode(pref: Prefs, view: set<string>, m: string, node: Node, i: nat, pushes: seq<Pushed>,
                     all: map<string, string>, started: set<string>, now: int)
    requires NodeInv(pref, view, m, node, pushes, all, started, now)
    requires i < |pushes| && PushAgrees(pref, view, pushes[i], all)
    ensures NodeInv(pref, view, m, Arrived(node, m, pushes[i], now), Without(pushes, i), all, started, now)
  {
    var p, node' := pushes[i], Arrived(node, m, pushes[i], now);
    DeliveredIsLive(node.table, p.key, p.value, p.seconds, now);
    hide OwnerOf, Snapshot, Lookup, ApplyLocal, PushRequest, Without;
    assert NodeAgrees(node', all, now);
    forall k ensures Leaving(m, node, pushes, k) ==> Leaving(m, node', Without(pushes, i), k) {
      OneLessPush(m, node', pushes, i, k);
    }
    hide Leaving, NodeAgrees;
    if m in started {
      OnTheirWayIf(pref, view, m, node, node', pushes, Without(pushes, i), now, now);
    }
  }

  // Deleting a pushed key, and sweeping.
  lemma ShrinkKeepsInv(pref: Prefs, c: State, view: set<string>, all: map<string, string>, started: set<string>,
                       n: string, node': Node, now: int)
    requires Inv(pref, c, view, all, started, now) && n in view
    requires node' == c.nodes[n].(table := node'.table, acked := node'.acked)
    requires forall k :: Lookup(node'.table, k, now).Some? ==>
      Lookup(node'.table, k, now) == Lookup(c.nodes[n].table, k, now)
    requires forall k :: k in Snapshot(node'.table, now) ==>
      k in Snapshot(c.nodes[n].table, now) && (k in c.nodes[n].acked ==> k in node'.acked)
    ensures Inv(pref, WithNode(c, n, node'), view, all, started, now)
  {
    var node := c.nodes[n];
    assert NodeInv(pref, view, n, node, c.pushes, all, started, now);
    hide OwnerOf, Snapshot, Lookup, PushAgrees;
    assert NodeAgrees(node', all, now);
    if n in started {
      OnTheirWayIf(pref, view, n, node, node', c.pushes, c.pushes, now, now);
    }
    assert NodeInv(pref, view, n, node', c.pushes, all, started, now);
    hide NodeInv;
  }

  lemma DeleteKeepsInv(pref: Prefs, c: State, view: set<string>, all: map<string, string>, started: set<string>,
                       n: string, k: string, now: int)
    requires Inv(pref, c, view, all, started, now) && n in view
    ensures Inv(pref, WithNode(c, n, Deleted(c.nodes[n], k)), view, all, started, now)
  {
    assert n in c.nodes;
    hide Inv, OwnerOf;
    ShrinkKeepsInv(pref, c, view, all, started, n, Deleted(c.nodes[n], k), now);
  }

  lemma SweepKeepsInv(pref: Prefs, c: State, view: set<string>, all: map<string, string>, started: set<string>,
                      n: string, now: int)
    requires Inv(pref, c, view, all, started, now) && n in view
    ensures Inv(pref, WithNode(c, n, c.nodes[n].(table := Sweep(c.nodes[n].table, now))), view, all, started, now)
  {
    assert n in c.nodes;
    hide Inv, OwnerOf;
    ShrinkKeepsInv(pref, c, view, all, started, n, c.nodes[n].(table := Sweep(c.nodes[n].table, now)), now);
  }

  lemma StepKeepsInv(pref: Prefs, ids: set<string>, c: State, view: set<string>, all: map<string, string>,
                     started: set<string>, e: Event)
    requires GoodPrefs(pref, ids) && ViewsOk(c, ids) && Inv(pref, c, view, all, started, e.now)
    requires IsMigrateStep(e.step, view)
    ensures Inv(pref, Next(pref, ids, c, e), view, all, started + StartedBy(e.step), e.now)
  {
    assert Agreed(c, view);
    hide Inv, GoodPrefs, ViewsOk, SendPush, ArrivePush;
    match e.step
    case Send(n, j, k) =>
      assert started + {} == started;
      if n in c.nodes && c.nodes[n].up && j < |c.nodes[n].jobs| && k in c.nodes[n].jobs[j].todo {
        SendKeepsInv(pref, ids, c, view, all, started, n, j, k, e.now);
      }
    case Arrive(i, _) =>
      assert started + {} == started;
      if i < |c.pushes| {
        ArriveKeepsInv(pref, c, view, all, started, i, e.now);
      }
    case _ => LocalStepKeepsInv(pref, ids, c, view, all, started, e);
  }

  lemma LocalStepKeepsInv(pref: Prefs, ids: set<string>, c: State, view: set<string>, all: map<string, string>,
                          started: set<string>, e: Event)
    requires GoodPrefs(pref, ids) && ViewsOk(c, ids) && Inv(pref, c, view, all, started, e.now)
    requires IsMigrateStep(e.step, view) && (e.step.StartMigration? || e.step.DeletePushed? || e.step.SweepNode?)
    ensures Inv(pref, Next(pref, ids, c, e), view, all, started + StartedBy(e.step), e.now)
  {
    var n := e.step.n;
    assert Agreed(c, view) && (n in view ==> n in c.nodes && c.nodes[n].up);
    assert n in c.nodes && c.nodes[n].up ==> n in view;
    hide Inv, GoodPrefs, ViewsOk, Snapshot, Sweep, Deleted, Agreed;
    match e.step
    case StartMigration(_, only) => StartKeepsInv(pref, c, view, all, started, n, e.now);
    case DeletePushed(_, k) =>
      assert started + {} == started;
      if n in view {
        DeleteKeepsInv(pref, c, view, all, started, n, k, e.now);
      }
    case SweepNode(_) =>
      assert started + {} == started;
      if n in view {
        SweepKeepsInv(pref, c, view, all, started, n, e.now);
      }
  }

  lemma {:induction false} RunKeepsInv(pref: Prefs, ids: set<string>, c: State, view: set<string>,
                                       all: map<string,
                                       string>,
                                       started: set<string>, run: seq<Event>, start: int)
    requires GoodPrefs(pref, ids) && ViewsOk(c, ids) && Inv(pref, c, view, all, started, start)
    requires MigrateRun(run, view) && InTimeOrder(run, start)
    ensures Inv(pref, Cluster.Run(pref, ids, c, run), view, all, started + Started(run), EndTime(run, start))
    decreases run
  {
    assert view <= c.nodes.Keys;
    hide NodeInv, Next, GoodPrefs, ViewsOk, IsMigrateStep, Agreed, PushAgrees;
    if run == [] {
      assert started + Started(run) == started;
    } else {
      var e := run[0];
      assert e in run;
      forall n | n in view ensures NodeInv(pref, view, n, c.nodes[n], c.pushes, all, started, e.now) {
        LaterNodeInv(pref, view, n, c.nodes[n], c.pushes, all, started, start, e.now);
      }
      StepKeepsInv(pref, ids, c, view, all, started, e);
      NextKeepsViews(pref, ids, c, e);
      assert forall e :: e in run[1..] ==> e in run;
      hide Inv;
      RunKeepsInv(pref, ids, Next(pref, ids, c, e), view, all, started + StartedBy(e.step), run[1..], e.now);
      assert started + Started(run) == started + StartedBy(e.step) + Started(run[1..]);
      assert EndTime(run, start) == EndTime(run[1..], e.now);
    }
  }

  // ---------------------------------------------------------------- the end

  // A member lists only keys it owns, with the agreed values, and has nothing left to move.
  ghost predicate Placed(pref: Prefs, view: set<string>, n: string, t: Table, all: map<string, string>, now: int) {
    && (forall k :: k in Snapshot(t, now) ==> k in all && OwnerOf(pref, view, k) == n && Snapshot(t, now)[k] == all[k])
    && ToMove(pref, view, n, t, now) == {}
  }

  // What a fresh MIGRATE at n would have to push.
  function ToMove(pref: Prefs, view: set<string>, n: string, t: Table, now: int): set<string> {
    set k | k in Snapshot(t, now) && MustMove(OwnerOf(pref, view, k), n, None)
  }

  lemma FinishedIsPlaced(pref: Prefs, c: State, view: set<string>, all: map<string, string>, started: set<string>,
                         now: int, n: string)
    requires Inv(pref, c, view, all, started, now) && view <= started && Finished(c) && n in view
    ensures n in c.nodes && Placed(pref, view, n, c.nodes[n].table, all, now)
  {
    assert NodeInv(pref, view, n, c.nodes[n], c.pushes, all, started, now);
    assert forall k :: !Leaving(n, c.nodes[n], c.pushes, k);
    var t := c.nodes[n].table;
    assert forall k :: k in Snapshot(t, now) ==> Lookup(t, k, now) == Some(Snapshot(t, now)[k]);
    hide Inv, Snapshot, OwnerOf, Leaving, Lookup;
  }

  // The members agree on the key-to-value map all, and no migration is under way.
  ghost predicate AgreedStart(c: State, view: set<string>, all: map<string, string>, now: int) {
    && Agreed(c, view) && c.pushes == []
    && (forall n :: n in c.nodes ==> c.nodes[n].acked == multiset{})
    && (forall n :: n in view ==> c.nodes[n].jobs == [] && NodeAgrees(c.nodes[n], all, now))
  }

  /** Placement: with agreeing views and equal copies, once every member has started a MIGRATE and all
      of them are through, in whatever order snapshots, acknowledged pushes, deletes and sweeps
      interleaved and however long they took, every listed key is on its ring owner alone, with the
      agreed value, and a further MIGRATE anywhere finds nothing to move. */
  lemma MigrateEverywherePlacesKeys(pref: Prefs, ids: set<string>, c: State, view: set<string>,
                                    all: map<string,
                                    string>, run: seq<Event>,
                                    start: int)
    requires GoodPrefs(pref, ids) && ViewsOk(c, ids) && AgreedStart(c, view, all, start)
    requires MigrateRun(run, view) && InTimeOrder(run, start) && view <= Started(run)
    requires Finished(Cluster.Run(pref, ids, c, run))
    ensures var c', end := Cluster.Run(pref, ids, c, run), EndTime(run, start);
      forall n :: n in view ==> n in c'.nodes && Placed(pref, view, n, c'.nodes[n].table, all, end)
  {
    assert Inv(pref, c, view, all, {}, start);
    hide Inv, Placed, GoodPrefs, ViewsOk, Finished, MigrateRun, AgreedStart;
    RunKeepsInv(pref, ids, c, view, all, {}, run, start);
    assert {} + Started(run) == Started(run);
    var c', end := Cluster.Run(pref, ids, c, run), EndTime(run, start);
    forall n | n in view ensures n in c'.nodes && Placed(pref, view, n, c'.nodes[n].table, all, end) {
      FinishedIsPlaced(pref, c', view, all, Started(run), end, n);
    }
  }

  // The key's live copies last until the given time, or forever.
  ghost predicate CopiesLast(c: State, key: string, until: Option<int>, now: int) {
    forall n :: n in c.nodes && c.nodes[n].up && key in c.nodes[n].table ==>
      (until.Some? && Expired(c.nodes[n].table[key], now)) || Outlasts(c.nodes[n].table[key], until)
  }

  /** And no key is lost on the way: afterwards each key with a live copy is listed by its owner, under
      its agreed value, before its smallest expiry less what its pushes may cost; without expiry, always. */
  lemma MigrateEverywhereKeepsKeys(pref: Prefs, ids: set<string>, c: State, view: set<string>, all: map<string, string>,
                                   run: seq<Event>, start: int, key: string, until: Option<int>)
    requires GoodPrefs(pref, ids) && ViewsOk(c, ids) && AgreedStart(c, view, all, start)
    requires MigrateRun(run, view) && InTimeOrder(run, start) && view <= Started(run)
    requires Finished(Cluster.Run(pref, ids, c, run))
    requires LiveSomewhere(c, key, start) && CopiesLast(c, key, until, start)
    requires var until' := Sooner(until, Sends(run, key)); until'.Some? ==> EndTime(run, start) < until'.value
    ensures var c', end, owner := Cluster.Run(pref, ids, c, run), EndTime(run, start), OwnerOf(pref, view, key);
      && key in all && owner in view && owner in c'.nodes
      && key in Snapshot(c'.nodes[owner].table, end) && Snapshot(c'.nodes[owner].table, end)[key] == all[key]
  {
    var c', end := Cluster.Run(pref, ids, c, run), EndTime(run, start);
    LiveCopiesAgree(c, view, all, key, until, start);
    assert QuietRun(run, key) && SnapshotValues(c, key, {all[key]}) && Settled(c, key);
    MigrateEverywherePlacesKeys(pref, ids, c, view, all, run, start);
    hide GoodPrefs, ViewsOk, AgreedStart, MigrateRun, QuietRun, SnapshotValues, Settled, Finished, OwnerOf, Placed,
         LiveCopies, LiveSomewhere, CopiesLast, Agreed, Snapshot;
    RebalancingConservesKeys(pref, ids, c, run, key, {all[key]}, until, start);
    RunKeepsMembers(pref, ids, c, view, all, run, start);
    LiveIsListed(pref, c', view, all, key, Sooner(until, Sends(run, key)), end);
  }

  lemma LiveIsListed(pref: Prefs, c: State, view: set<string>, all: map<string, string>, key: string,
                     until: Option<int>, now: int)
    requires Agreed(c, view) && key in all && (until.Some? ==> now < until.value)
    requires LiveSomewhere(c, key, now) && LiveCopies(c, key, {all[key]}, until, now)
    requires forall n :: n in view ==> n in c.nodes && Placed(pref, view, n, c.nodes[n].table, all, now)
    ensures var owner := OwnerOf(pref, view, key);
      && owner in view && owner in c.nodes
      && key in Snapshot(c.nodes[owner].table, now) && Snapshot(c.nodes[owner].table, now)[key] == all[key]
  {
    hide OwnerOf;
    var n :| n in c.nodes && c.nodes[n].up && Lookup(c.nodes[n].table, key, now).Some?;
    assert key in Snapshot(c.nodes[n].table, now);
    assert Placed(pref, view, n, c.nodes[n].table, all, now);
  }

  lemma LiveCopiesAgree(c: State, view: set<string>, all: map<string, string>, key: string, until: Option<int>,
                        now: int)
    requires AgreedStart(c, view, all, now) && LiveSomewhere(c, key, now) && CopiesLast(c, key, until, now)
    ensures key in all && LiveCopies(c, key, {all[key]}, until, now)
  {
    forall n | n in c.nodes && c.nodes[n].up && key in c.nodes[n].table && !Expired(c.nodes[n].table[key], now)
      ensures key in all && c.nodes[n].table[key].value == all[key]
    {
      assert Lookup(c.nodes[n].table, key, now) == Some(c.nodes[n].table[key].value);
    }
  }

  lemma RunKeepsMembers(pref: Prefs, ids: set<string>, c: State, view: set<string>, all: map<string, string>,
                        run: seq<Event>, start: int)
    requires GoodPrefs(pref, ids) && ViewsOk(c, ids) && AgreedStart(c, view, all, start)
    requires MigrateRun(run, view) && InTimeOrder(run, start)
    ensures Agreed(Cluster.Run(pref, ids, c, run), view)
  {
    assert Inv(pref, c, view, all, {}, start);
    hide GoodPrefs, ViewsOk, AgreedStart, MigrateRun;
    RunKeepsInv(pref, ids, c, view, all, {}, run, start);
  }

  /** The price: after placement a key has one copy left. When then any member crashes, GET at every
      other one answers the key's value if the crashed node was not the owner, and MISS if it was. */
  lemma PlacedKeysDieWithTheirOwner(pref: Prefs, ids: set<string>, c: State, view: set<string>,
                                    all: map<string, string>, end: int, x: string, t: int, key: string, s: string,
                                    now: int, order: string -> seq<string>, fate: Fates)
    requires GoodPrefs(pref, ids) && ViewsOk(c, ids) && Agreed(c, view) && x in view && s in view && s != x
    requires forall n :: n in view ==> Placed(pref, view, n, c.nodes[n].table, all, end)
    requires PollsPeers(Next(pref, ids, c, Event(t, Crash(x))), order)
    requires key in all && OwnerOf(pref, view, key) in view && now > end
    requires Lookup(c.nodes[OwnerOf(pref, view, key)].table, key, now).Some?
    ensures var c' := Next(pref, ids, c, Event(t, Crash(x)));
      && ViewsOk(c', ids)
      && Read(pref, ids, c', s, key, now, order, fate) == if x == OwnerOf(pref, view, key) then "MISS" else all[key]
  {
    var c', owner := Next(pref, ids, c, Event(t, Crash(x))), OwnerOf(pref, view, key);
    hide Next, GoodPrefs, OwnerOf, Placed, Lookup, Read, PollsPeers;
    NextKeepsViews(pref, ids, c, Event(t, Crash(x)));
    CrashedNodes(pref, ids, c, x, t);
    SurvivorsPollOwner(c, c', view, x, owner, s, order);
    hide ViewsOk, Agreed;
    forall n | n in c.nodes && c'.nodes[n].up
      ensures Lookup(c'.nodes[n].table, key, now) == if n == owner then Some(all[key]) else None
    {
      LiveOnlyAtOwner(pref, view, n, c.nodes[n].table, all, end, key, now);
    }
    if x == owner {
      AbsentIsMiss(pref, ids, c', s, key, now, order, fate);
    } else {
      AgreedCopiesAreRead(pref, ids, c', s, owner, key, all[key], now, order, fate);
    }
  }

  lemma SurvivorsPollOwner(c: State, c': State, view: set<string>, x: string, owner: string, s: string,
                           order: string -> seq<string>)
    requires Agreed(c, view) && x in view && s in view && s != x && owner in view && PollsPeers(c', order)
    requires c'.nodes == c.nodes[x := Fresh(c.nodes.Keys).(up := false)]
    ensures forall n :: n in c.nodes && c'.nodes[n].up ==> n in view && n != x
    ensures s in c.nodes && c'.nodes[s].up && owner in c.nodes
    ensures x != owner ==> c'.nodes[owner].up && Polled(c', owner, order)
  {}

  lemma CrashedNodes(pref: Prefs, ids: set<string>, c: State, x: string, t: int)
    requires GoodPrefs(pref, ids) && ViewsOk(c, ids) && x in c.nodes
    ensures Next(pref, ids, c, Event(t, Crash(x))).nodes == c.nodes[x := Fresh(c.nodes.Keys).(up := false)]
  {
    hide GoodPrefs, ViewsOk;
  }

  lemma LiveOnlyAtOwner(pref: Prefs, view: set<string>, n: string, t: Table, all: map<string, string>, end: int,
                        key: string, now: int)
    requires Placed(pref, view, n, t, all, end) && now > end && key in all
    ensures Lookup(t, key, now).Some? ==> OwnerOf(pref, view, key) == n && Lookup(t, key, now) == Some(all[key])
  {
    assert Lookup(t, key, now).Some? ==> key in Snapshot(t, end) && Snapshot(t, end)[key] == t[key].value;
  }
}
