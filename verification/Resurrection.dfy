/** A run in which a deleted key comes back: the replica's migration pushes it from an old snapshot. */
module Resurrection {
  import opened Text
  import opened StoreSpec
  import opened Wire
  import opened NodeSpec
  import opened Cluster
  import opened Reads
  import opened Durability
  import opened Deletion

  // All nodes up and under full views; p and r are as given, the others empty.
  function Scene(ids: set<string>, p: string, r: string, atP: Node, atR: Node, pushes: seq<Pushed>,
                 written: set<(string, string)>): State
  {
    State(map n | n in ids :: if n == p then atP else if n == r then atR else Fresh(ids), pushes, written)
  }

  function At(ids: set<string>, t: Table, tasks: multiset<Task>, jobs: seq<Job>): Node {
    Node(true, ids, t, tasks, jobs, multiset{})
  }

  lemma SceneChanges(ids: set<string>, p: string, r: string, atP: Node, atR: Node, pushes: seq<Pushed>,
                     written: set<(string, string)>, node: Node)
    requires p in ids && r in ids && p != r
    ensures var c := Scene(ids, p, r, atP, atR, pushes, written);
      && WithNode(c, p, node) == Scene(ids, p, r, node, atR, pushes, written)
      && WithNode(c, r, node) == Scene(ids, p, r, atP, node, pushes, written)
  {}

  lemma SceneIsReachable(ids: set<string>, p: string, r: string, atP: Node, atR: Node, pushes: seq<Pushed>,
                         written: set<(string, string)>)
    requires p in ids && r in ids && p != r
    requires atP.up && atP.view == ids && atR.up && atR.view == ids
    ensures var c := Scene(ids, p, r, atP, atR, pushes, written);
      AllReachable(c, ids) && ViewsOk(c, ids) && c.nodes[p] == atP && c.nodes[r] == atR
  {}

  function Setting(key: string, value: string): Task { Task(key, value, 0, false) }
  function Removing(key: string): Task { Task(key, "", 0, true) }

  // SET, its replication, MIGRATE at the replica, DEL and its replication.
  function Deleting(p: string, r: string, key: string, value: string): seq<Event> {
    [Event(0, ClientSet(p, key, value, 0)), Event(0, Replicate(p, Setting(key, value), true)),
     Event(0, StartMigration(r, None)),
     Event(0, ClientDel(p, key)), Event(0, Replicate(p, Removing(key), true))]
  }

  // The replica's migration comes to the key.
  function Pushing(r: string, key: string): seq<Event> {
    [Event(0, Send(r, 0, key)), Event(0, Arrive(0, Acknowledged))]
  }

  // ---------------------------------------------------------------- the single steps

  lemma WriteStep(pref: Prefs, ids: set<string>, p: string, r: string, key: string, s: Step, task: Task, atP: Node,
                  atR: Node, written: set<(string, string)>)
    requires GoodPrefs(pref, ids) && |ids| >= 2 && Token(key) && p == pref(key)[0] && r in ids && p != r && p in ids
    requires atP.up && atP.view == ids && atR.up && atR.view == ids && task.key == key
    requires (s == ClientSet(p, key, task.value, 0) && Token(task.value) && task == Task(key, task.value, 0, false))
      || (s == ClientDel(p, key) && task == Task(key, "", 0, true))
    ensures var c := Scene(ids, p, r, atP, atR, [], written);
      && ViewsOk(c, ids)
      && Next(pref, ids, c, Event(0, s)) == Scene(ids, p, r, WriteAt(c, p, task, 0).nodes[p], atR, [],
           if task.del then written else written + {(key, task.value)})
  {
    var c := Scene(ids, p, r, atP, atR, [], written);
    SceneIsReachable(ids, p, r, atP, atR, [], written);
    WritesGoToPrimary(pref, ids, c, p, key);
    SceneChanges(ids, p, r, atP, atR, [], written, WriteAt(c, p, task, 0).nodes[p]);
    hide GoodPrefs, Token, Route, Scene;
  }

  lemma ReplicateStep(pref: Prefs, ids: set<string>, p: string, r: string, task: Task, atP: Node, atR: Node,
                      written: set<(string, string)>)
    requires GoodPrefs(pref, ids) && |ids| >= 2 && |pref(task.key)| >= 2
    requires p == pref(task.key)[0] && r == pref(task.key)[1] && p in ids && r in ids && p != r
    requires atP.up && atP.view == ids && atR.up && atR.view == ids && task in atP.tasks
    ensures var c := Scene(ids, p, r, atP, atR, [], written);
      && ViewsOk(c, ids)
      && var table := ApplyLocal(atR.table, ReplicaRequest(task.key, task.value, task.ttl, task.del), 0);
         Next(pref, ids, c, Event(0, Replicate(p, task, true)))
           == Scene(ids, p, r, atP.(tasks := atP.tasks - multiset{task}), atR.(table := table), [], written)
  {
    var c := Scene(ids, p, r, atP, atR, [], written);
    var request := ReplicaRequest(task.key, task.value, task.ttl, task.del);
    var atP', atR' := atP.(tasks := atP.tasks - multiset{task}), atR.(table := ApplyLocal(atR.table, request, 0));
    SceneIsReachable(ids, p, r, atP, atR, [], written);
    ReplicaIsNext(pref, ids, c, task.key);
    SceneChanges(ids, p, r, atP, atR, [], written, atP');
    SceneChanges(ids, p, r, atP', atR, [], written, atR');
    SceneIsReachable(ids, p, r, atP', atR, [], written);
    hide GoodPrefs, Scene, ReplicaAt, ApplyLocal, ReplicaRequest, ViewsOk, AllReachable;
    ReplicateIs(pref, ids, c, p, r, task);
    hide Next;
  }

  lemma ReplicateIs(pref: Prefs, ids: set<string>, c: State, p: string, r: string, task: Task)
    requires GoodPrefs(pref, ids) && ViewsOk(c, ids) && p in c.nodes && r in c.nodes && p != r
    requires c.nodes[p].up && c.nodes[r].up && task in c.nodes[p].tasks && ReplicaAt(pref, c, p, task.key) == Some(r)
    ensures var c1 := WithNode(c, p, c.nodes[p].(tasks := c.nodes[p].tasks - multiset{task}));
      Next(pref, ids, c, Event(0, Replicate(p, task, true)))
        == WithNode(c1, r, c1.nodes[r].(table :=
             ApplyLocal(c1.nodes[r].table, ReplicaRequest(task.key, task.value, task.ttl, task.del), 0)))
  {
    hide GoodPrefs, ViewsOk, ReplicaAt, ApplyLocal, ReplicaRequest;
  }

  lemma StartStep(pref: Prefs, ids: set<string>, p: string, r: string, atP: Node, atR: Node,
                  written: set<(string, string)>)
    requires GoodPrefs(pref, ids) && p in ids && r in ids && p != r
    requires atP.up && atP.view == ids && atR.up && atR.view == ids
    ensures var c := Scene(ids, p, r, atP, atR, [], written);
      && ViewsOk(c, ids)
      && Next(pref, ids, c, Event(0, StartMigration(r, None)))
         == Scene(ids, p, r, atP, atR.(jobs := atR.jobs + [Job(None, Snapshot(atR.table, 0))]), [], written)
  {
    SceneIsReachable(ids, p, r, atP, atR, [], written);
    SceneChanges(ids, p, r, atP, atR, [], written, atR.(jobs := atR.jobs + [Job(None, Snapshot(atR.table, 0))]));
    hide GoodPrefs, Scene, Snapshot;
  }

  lemma SendStep(pref: Prefs, ids: set<string>, p: string, r: string, key: string, value: string, atP: Node,
                 written: set<(string, string)>)
    requires GoodPrefs(pref, ids) && |ids| >= 2 && p == pref(key)[0] && p in ids && r in ids && p != r
    requires atP.up && atP.view == ids
    ensures var c := Scene(ids, p, r, atP, At(ids, map[], multiset{}, [Job(None, map[key := value])]), [], written);
      && ViewsOk(c, ids)
      && Next(pref, ids, c, Event(0, Send(r, 0, key)))
         == Scene(ids, p, r, atP, At(ids, map[], multiset{}, [Job(None, map[])]),
                  [Pushed(r, p, key, value, -2, true)], written)
  {
    var before := At(ids, map[], multiset{}, [Job(None, map[key := value])]);
    var after := At(ids, map[], multiset{}, [Job(None, map[])]);
    var c := Scene(ids, p, r, atP, before, [], written);
    SceneIsReachable(ids, p, r, atP, before, [], written);
    PrimaryAndReplica(pref, ids, key);
    assert OwnerAt(pref, c, r, key) == p;
    SceneChanges(ids, p, r, atP, before, [], written, after);
    assert map[key := value] - {key} == map[];
    assert Visited(before, 0, key) == after;
    assert RemainingSeconds(before.table, key, 0) == -2;
    hide GoodPrefs, Scene, OwnerAt, Visited, RemainingSeconds;
  }

  lemma ArriveStep(pref: Prefs, ids: set<string>, p: string, r: string, key: string, value: string, atP: Node,
                   atR: Node, written: set<(string, string)>)
    requires GoodPrefs(pref, ids) && p in ids && r in ids && p != r
    requires atP.up && atP.view == ids && atR.up && atR.view == ids
    ensures var c := Scene(ids, p, r, atP, atR, [Pushed(r, p, key, value, -2, true)], written);
      && ViewsOk(c, ids)
      && Next(pref, ids, c, Event(0, Arrive(0, Acknowledged)))
         == Scene(ids, p, r, atP.(table := atP.table[key := Entry(value, None)]),
                  atR.(acked := atR.acked + multiset{key}), [], written)
  {
    var pushed := Pushed(r, p, key, value, -2, true);
    var atP' := atP.(table := atP.table[key := Entry(value, None)]);
    var c := Scene(ids, p, r, atP, atR, [pushed], written);
    SceneIsReachable(ids, p, r, atP, atR, [pushed], written);
    SceneIsReachable(ids, p, r, atP', atR, [], written);
    SceneChanges(ids, p, r, atP, atR, [], written, atP');
    SceneChanges(ids, p, r, atP', atR, [], written, atR.(acked := atR.acked + multiset{key}));
    assert c.(pushes := []) == Scene(ids, p, r, atP, atR, [], written);
    assert c.pushes == [pushed];
    hide GoodPrefs, Scene, ViewsOk, AllReachable;
    ArriveIs(pref, ids, c, pushed);
    hide Next;
  }

  lemma ArriveIs(pref: Prefs, ids: set<string>, c: State, p: Pushed)
    requires GoodPrefs(pref, ids) && ViewsOk(c, ids) && c.pushes == [p] && p.seconds == -2 && p.waiting
    requires p.from in c.nodes && p.to in c.nodes && p.from != p.to && c.nodes[p.from].up && c.nodes[p.to].up
    ensures var c1 := WithNode(c.(pushes := []), p.to,
        c.nodes[p.to].(table := c.nodes[p.to].table[p.key := Entry(p.value, None)]));
      Next(pref, ids, c, Event(0, Arrive(0, Acknowledged)))
        == WithNode(c1, p.from, c.nodes[p.from].(acked := c.nodes[p.from].acked + multiset{p.key}))
  {
    assert Without([p], 0) == [];
    assert Next(pref, ids, c, Event(0, Arrive(0, Acknowledged))) == ArrivePush(c, 0, Acknowledged, 0) by {
      hide ArrivePush, GoodPrefs, ViewsOk;
    }
    hide Next, GoodPrefs, ViewsOk, Without;
    var c0, request := c.(pushes := []), PushRequest(p.key, p.value, p.seconds);
    Arrived(c0, p);
    hide Deliver, PushRequest;
    var c1 := Deliver(c0, p.to, request, 0);
    assert ArrivePush(c, 0, Acknowledged, 0)
        == WithNode(c1, p.from, c1.nodes[p.from].(acked := c1.nodes[p.from].acked + multiset{p.key}));
  }

  lemma Arrived(c: State, p: Pushed)
    requires p.to in c.nodes && p.seconds == -2
    ensures Deliver(c, p.to, PushRequest(p.key, p.value, p.seconds), 0)
         == WithNode(c, p.to, c.nodes[p.to].(table := c.nodes[p.to].table[p.key := Entry(p.value, None)]))
  {}

  // ---------------------------------------------------------------- the run

  function Stored(key: string, value: string): Table { map[key := Entry(value, None)] }

  // A node that has nothing but the given table.
  function With(ids: set<string>, t: Table): Node { At(ids, t, multiset{}, []) }

  // And one that also runs a MIGRATE from the given snapshot.
  function Migrating(ids: set<string>, t: Table, todo: map<string, string>): Node {
    At(ids, t, multiset{}, [Job(None, todo)])
  }

  lemma StartsEmpty(ids: set<string>, p: string, r: string)
    ensures Initial(ids) == Scene(ids, p, r, With(ids, map[]), With(ids, map[]), [], {})
  {}

  lemma SetStep(pref: Prefs, ids: set<string>, p: string, r: string, key: string, value: string)
    requires GoodPrefs(pref, ids) && |ids| >= 2 && Token(key) && Token(value)
    requires |pref(key)| >= 2 && p == pref(key)[0] && r == pref(key)[1] && p in ids && r in ids && p != r
    ensures var c := Scene(ids, p, r, With(ids, map[]), With(ids, map[]), [], {});
      && ViewsOk(c, ids)
      && Next(pref, ids, c, Event(0, ClientSet(p, key, value, 0)))
         == Scene(ids, p, r, At(ids, Stored(key, value), multiset{Setting(key, value)}, []), With(ids, map[]), [],
                  {(key, value)})
  {
    hide Next, GoodPrefs, Token, ViewsOk;
    var empty := With(ids, map[]);
    WriteStep(pref, ids, p, r, key, ClientSet(p, key, value, 0), Setting(key, value), empty, empty, {});
    assert {} + {(key, value)} == {(key, value)};
    assert map[][key := Entry(value, None)] == Stored(key, value);
    assert multiset{} + multiset{Setting(key, value)} == multiset{Setting(key, value)};
  }

  lemma SetArrives(pref: Prefs, ids: set<string>, p: string, r: string, key: string, value: string)
    requires GoodPrefs(pref, ids) && |ids| >= 2 && Token(key) && Token(value)
    requires |pref(key)| >= 2 && p == pref(key)[0] && r == pref(key)[1] && p in ids && r in ids && p != r
    ensures var atP := At(ids, Stored(key, value), multiset{Setting(key, value)}, []);
      var c := Scene(ids, p, r, atP, With(ids, map[]), [], {(key, value)});
      && ViewsOk(c, ids)
      && Next(pref, ids, c, Event(0, Replicate(p, Setting(key, value), true)))
         == Scene(ids, p, r, With(ids, Stored(key, value)), With(ids, Stored(key, value)), [], {(key, value)})
  {
    hide Next, GoodPrefs, Token, ViewsOk, Scene;
    var atP := At(ids, Stored(key, value), multiset{Setting(key, value)}, []);
    ReplicateStep(pref, ids, p, r, Setting(key, value), atP, With(ids, map[]), {(key, value)});
    assert atP.tasks - multiset{Setting(key, value)} == multiset{};
  }

  lemma MigrateStarts(pref: Prefs, ids: set<string>, p: string, r: string, key: string, value: string)
    requires GoodPrefs(pref, ids) && p in ids && r in ids && p != r
    ensures var c := Scene(ids, p, r, With(ids, Stored(key, value)), With(ids, Stored(key, value)), [], {(key, value)});
      && ViewsOk(c, ids)
      && Next(pref, ids, c, Event(0, StartMigration(r, None)))
         == Scene(ids, p, r, With(ids, Stored(key, value)), Migrating(ids, Stored(key, value), map[key := value]), [],
                  {(key, value)})
  {
    hide Next, GoodPrefs, ViewsOk, Scene;
    StartStep(pref, ids, p, r, With(ids, Stored(key, value)), With(ids, Stored(key, value)), {(key, value)});
    assert Snapshot(Stored(key, value), 0) == map[key := value];
    assert [] + [Job(None, map[key := value])] == [Job(None, map[key := value])];
  }

  lemma DelStep(pref: Prefs, ids: set<string>, p: string, r: string, key: string, value: string)
    requires GoodPrefs(pref, ids) && |ids| >= 2 && Token(key) && Token(value)
    requires |pref(key)| >= 2 && p == pref(key)[0] && r == pref(key)[1] && p in ids && r in ids && p != r
    ensures var atR := Migrating(ids, Stored(key, value), map[key := value]);
      var c := Scene(ids, p, r, With(ids, Stored(key, value)), atR, [], {(key, value)});
      && ViewsOk(c, ids)
      && Next(pref, ids, c, Event(0, ClientDel(p, key)))
         == Scene(ids, p, r, At(ids, map[], multiset{Removing(key)}, []), atR, [], {(key, value)})
  {
    hide Next, GoodPrefs, Token, ViewsOk;
    var atR := Migrating(ids, Stored(key, value), map[key := value]);
    var atP := With(ids, Stored(key, value));
    WriteStep(pref, ids, p, r, key, ClientDel(p, key), Removing(key), atP, atR, {(key, value)});
    assert Stored(key, value) - {key} == map[];
    assert multiset{} + multiset{Removing(key)} == multiset{Removing(key)};
  }

  lemma DelArrives(pref: Prefs, ids: set<string>, p: string, r: string, key: string, value: string)
    requires GoodPrefs(pref, ids) && |ids| >= 2 && Token(key) && Token(value)
    requires |pref(key)| >= 2 && p == pref(key)[0] && r == pref(key)[1] && p in ids && r in ids && p != r
    ensures var c := Scene(ids, p, r, At(ids, map[], multiset{Removing(key)}, []),
                           Migrating(ids, Stored(key, value), map[key := value]), [], {(key, value)});
      && ViewsOk(c, ids)
      && Next(pref, ids, c, Event(0, Replicate(p, Removing(key), true))) == Vanished(ids, p, r, key, value)
  {
    hide Next, GoodPrefs, Token, ViewsOk, Scene;
    var atP, atR := At(ids, map[], multiset{Removing(key)}, []), Migrating(ids, Stored(key, value), map[key := value]);
    ReplicateStep(pref, ids, p, r, Removing(key), atP, atR, {(key, value)});
    assert atP.tasks - multiset{Removing(key)} == multiset{};
    assert Stored(key, value) - {key} == map[];
  }

  // The key is deleted everywhere, and the replica's migration has yet to visit it.
  function Vanished(ids: set<string>, p: string, r: string, key: string, value: string): State {
    Scene(ids, p, r, With(ids, map[]), Migrating(ids, map[], map[key := value]), [], {(key, value)})
  }

  // The primary has the key again, for good.
  function Returned(ids: set<string>, p: string, r: string, key: string, value: string): State {
    var atR := Migrating(ids, map[], map[]).(acked := multiset{key});
    Scene(ids, p, r, With(ids, Stored(key, value)), atR, [], {(key, value)})
  }

  lemma SettingRuns(pref: Prefs, ids: set<string>, p: string, r: string, key: string, value: string, rest: seq<Event>)
    requires GoodPrefs(pref, ids) && |ids| >= 2 && Token(key) && Token(value)
    requires |pref(key)| >= 2 && p == pref(key)[0] && r == pref(key)[1] && p in ids && r in ids && p != r
    ensures var c := Scene(ids, p, r, With(ids, Stored(key, value)), With(ids, Stored(key, value)), [], {(key, value)});
      && ViewsOk(c, ids)
      && var a, b := Event(0, ClientSet(p, key, value, 0)), Event(0, Replicate(p, Setting(key, value), true));
         Cluster.Run(pref, ids, Initial(ids), [a] + ([b] + rest)) == Cluster.Run(pref, ids, c, rest)
  {
    hide Next, GoodPrefs, Token, ViewsOk, Scene, Cluster.Run, Initial, At, With, Stored, Setting;
    StartsEmpty(ids, p, r);
    SetStep(pref, ids, p, r, key, value);
    SetArrives(pref, ids, p, r, key, value);
    MigrateStarts(pref, ids, p, r, key, value);
    var a, b := Event(0, ClientSet(p, key, value, 0)), Event(0, Replicate(p, Setting(key, value), true));
    var c1 := Next(pref, ids, Initial(ids), a);
    RunThree(pref, ids, Initial(ids), a, c1, b, Next(pref, ids, c1, b), rest);
  }

  lemma RemovingRuns(pref: Prefs, ids: set<string>, p: string, r: string, key: string, value: string)
    requires GoodPrefs(pref, ids) && |ids| >= 2 && Token(key) && Token(value)
    requires |pref(key)| >= 2 && p == pref(key)[0] && r == pref(key)[1] && p in ids && r in ids && p != r
    ensures var c := Scene(ids, p, r, With(ids, Stored(key, value)), With(ids, Stored(key, value)), [], {(key, value)});
      && ViewsOk(c, ids)
      && Cluster.Run(pref, ids, c, DeletingTail(p, r, key)) == Vanished(ids, p, r, key, value)
  {
    hide Next, GoodPrefs, Token, ViewsOk, Scene, Cluster.Run, At, With, Migrating, Stored, Removing, Vanished;
    MigrateStarts(pref, ids, p, r, key, value);
    DelStep(pref, ids, p, r, key, value);
    DelArrives(pref, ids, p, r, key, value);
    var c := Scene(ids, p, r, With(ids, Stored(key, value)), With(ids, Stored(key, value)), [], {(key, value)});
    var a, b := Event(0, StartMigration(r, None)), Event(0, ClientDel(p, key));
    var d := Event(0, Replicate(p, Removing(key), true));
    var c1 := Next(pref, ids, c, a);
    RunThree(pref, ids, c, a, c1, b, Next(pref, ids, c1, b), [d]);
    RunOne(pref, ids, Next(pref, ids, c1, b), d);
  }

  lemma DeletingRuns(pref: Prefs, ids: set<string>, key: string, value: string)
    requires GoodPrefs(pref, ids) && |ids| >= 2 && Token(key) && Token(value)
    ensures |pref(key)| >= 2
    ensures var p, r := pref(key)[0], pref(key)[1];
      Cluster.Run(pref, ids, Initial(ids), Deleting(p, r, key, value)) == Vanished(ids, p, r, key, value)
  {
    hide GoodPrefs, Token, ViewsOk, Cluster.Run, Initial, With, Stored, Vanished, Deleting, DeletingTail;
    PrimaryAndReplica(pref, ids, key);
    var p, r := pref(key)[0], pref(key)[1];
    DeletingIs(p, r, key, value);
    SettingRuns(pref, ids, p, r, key, value, DeletingTail(p, r, key));
    hide Scene;
    RemovingRuns(pref, ids, p, r, key, value);
  }

  function DeletingTail(p: string, r: string, key: string): seq<Event> {
    [Event(0, StartMigration(r, None))]
    + ([Event(0, ClientDel(p, key))] + [Event(0, Replicate(p, Removing(key), true))])
  }

  lemma DeletingIs(p: string, r: string, key: string, value: string)
    ensures Deleting(p, r, key, value) == [Event(0, ClientSet(p, key, value, 0))]
              + ([Event(0, Replicate(p, Setting(key, value), true))] + DeletingTail(p, r, key))
  {
    hide Setting, Removing;
  }

  lemma RunThree(pref: Prefs, ids: set<string>, c: State, a: Event, c1: State, b: Event, c2: State, rest: seq<Event>)
    requires GoodPrefs(pref, ids) && ViewsOk(c, ids) && c1 == Next(pref, ids, c, a) && ViewsOk(c1, ids)
    requires c2 == Next(pref, ids, c1, b) && ViewsOk(c2, ids)
    ensures Cluster.Run(pref, ids, c, [a] + ([b] + rest)) == Cluster.Run(pref, ids, c2, rest)
  {
    hide Next, GoodPrefs, ViewsOk, Cluster.Run;
    RunCons(pref, ids, c1, b, rest);
    RunCons(pref, ids, c, a, [b] + rest);
  }

  lemma PushingRuns(pref: Prefs, ids: set<string>, p: string, r: string, key: string, value: string)
    requires GoodPrefs(pref, ids) && |ids| >= 2 && Token(key) && Token(value)
    requires |pref(key)| >= 2 && p == pref(key)[0] && r == pref(key)[1] && p in ids && r in ids && p != r
    ensures ViewsOk(Vanished(ids, p, r, key, value), ids)
    ensures Cluster.Run(pref, ids, Vanished(ids, p, r, key, value), Pushing(r, key)) == Returned(ids, p, r, key, value)
  {
    hide Next, GoodPrefs, Token, ViewsOk, Scene, Cluster.Run;
    var c, run := Vanished(ids, p, r, key, value), Pushing(r, key);
    SendStep(pref, ids, p, r, key, value, With(ids, map[]), {(key, value)});
    ArriveStep(pref, ids, p, r, key, value, With(ids, map[]), Migrating(ids, map[], map[]), {(key, value)});
    RunOne(pref, ids, Next(pref, ids, c, run[0]), run[1]);
    RunCons(pref, ids, c, run[0], [run[1]]);
    assert run == [run[0]] + [run[1]];
    assert multiset{} + multiset{key} == multiset{key};
    assert map[][key := Entry(value, None)] == Stored(key, value);
  }

  /** Deletion is not final in this run, from the empty cluster on: a key is set and replicated, its
      replica starts a MIGRATE, and the key is deleted and the deletion replicated, so that no node has
      it. Then the migration pushes it from its snapshot, without a TTL, and GET anywhere answers the
      deleted value at any later time. */
  lemma DeletedKeyComesBack(pref: Prefs, ids: set<string>, key: string, value: string, s: string, now: int,
                            order: string -> seq<string>, fate: Fates)
    requires GoodPrefs(pref, ids) && |ids| >= 2 && Token(key) && Token(value) && s in ids
    requires forall n, id :: n in ids ==> (id in order(n) <==> id in ids && id != n)
    ensures |pref(key)| >= 2
    ensures var p, r := pref(key)[0], pref(key)[1];
      var c := Cluster.Run(pref, ids, Initial(ids), Deleting(p, r, key, value));
      var c' := Cluster.Run(pref, ids, c, Pushing(r, key));
      && LastWrite(NEVER, Deleting(p, r, key, value) + Pushing(r, key), key) == NEVER
      && Absent(c, key) && !NoPush(pref(key), c, key)
      && Read(pref, ids, c, s, key, now, order, fate) == "MISS"
      && Read(pref, ids, c', s, key, now, order, fate) == value
  {
    PrimaryAndReplica(pref, ids, key);
    var p, r := pref(key)[0], pref(key)[1];
    DeletingRuns(pref, ids, key, value);
    PushingRuns(pref, ids, p, r, key, value);
    DeletedIsAbsent(pref, ids, p, r, key, value);
    ReturnedIsHeld(ids, p, r, key, value, now, order);
    NothingWritten(p, r, key, value);
    hide GoodPrefs, Token, Cluster.Run, Vanished, Returned, Deleting, Pushing, Read, LastWrite, Initial, NoPush, Lookup;
    AbsentIsMiss(pref, ids, Vanished(ids, p, r, key, value), s, key, now, order, fate);
    AgreedCopiesAreRead(pref, ids, Returned(ids, p, r, key, value), s, p, key, value, now, order, fate);
  }

  lemma DeletedIsAbsent(pref: Prefs, ids: set<string>, p: string, r: string, key: string, value: string)
    requires GoodPrefs(pref, ids) && |pref(key)| >= 2 && p == pref(key)[0] && r == pref(key)[1]
    requires p in ids && r in ids && p != r
    ensures var c := Vanished(ids, p, r, key, value);
      && ViewsOk(c, ids) && Absent(c, key) && !NoPush(pref(key), c, key)
      && forall n :: n in ids ==> c.nodes[n].up && forall now :: Lookup(c.nodes[n].table, key, now).None?
  {
    var c := Vanished(ids, p, r, key, value);
    RankOfIndex(pref(key), 0);
    RankOfIndex(pref(key), 1);
    assert c.nodes[r].jobs[0].only.None? && key in c.nodes[r].jobs[0].todo && Before(pref(key), p, r);
    assert MayPush(pref(key), r, c.nodes[r], key);
    hide GoodPrefs, Before, MayPush;
  }

  lemma ReturnedIsHeld(ids: set<string>, p: string, r: string, key: string, value: string, now: int,
                       order: string -> seq<string>)
    requires p in ids && r in ids && p != r
    requires forall n, id :: n in ids ==> (id in order(n) <==> id in ids && id != n)
    ensures var c := Returned(ids, p, r, key, value);
      && ViewsOk(c, ids) && Polled(c, p, order) && Lookup(c.nodes[p].table, key, now) == Some(value)
      && forall n :: n in ids ==> c.nodes[n].up && Lookup(c.nodes[n].table, key, now) in {None, Some(value)}
  {}

  lemma NothingWritten(p: string, r: string, key: string, value: string)
    ensures LastWrite(NEVER, Deleting(p, r, key, value) + Pushing(r, key), key) == NEVER
  {
    var run, last := Deleting(p, r, key, value) + Pushing(r, key), Last(Some(value), None);
    LastWriteCons(NEVER, run, key);
    LastWriteCons(last, run[1..], key);
    LastWriteCons(last, run[2..], key);
    LastWriteCons(last, run[3..], key);
    LastWriteCons(NEVER, run[4..], key);
    LastWriteCons(NEVER, run[5..], key);
    LastWriteCons(NEVER, run[6..], key);
    hide LastWrite;
    assert LastWrite(NEVER, run[7..], key) == NEVER by { LastWriteNil(NEVER, run[7..], key); }
  }

  lemma LastWriteCons(last: Last, run: seq<Event>, key: string)
    requires run != []
    ensures LastWrite(last, run, key) == LastWrite(LastAfter(last, run[0], key), run[1..], key)
  {}

  lemma LastWriteNil(last: Last, run: seq<Event>, key: string)
    requires run == []
    ensures LastWrite(last, run, key) == last
  {}
}
