/** The whole cluster as a transition system: every node has its own membership view, store,
    pending replications and running migrations; steps interleave freely. */
module Cluster {
  import opened Text
  import opened Sequences
  import opened StoreSpec
  import opened Wire
  import opened NodeSpec
  import opened Preference

  // For each key, all nodes in the clockwise order of the full ring.
  type Prefs = string -> seq<string>

  // A running migrate, or a rebalance to one recovered node, with the snapshot keys still to visit.
  datatype Job = Job(only: Option<string>, todo: map<string, string>)

  // acked holds the keys whose push was acknowledged and which the node is about to delete.
  datatype Node = Node(up: bool, view: set<string>, table: Table, tasks: multiset<Task>, jobs: seq<Job>,
                       acked: multiset<string>)

  // A LOCALSET of a migration on its way; waiting says whether its sender still runs.
  datatype Pushed = Pushed(from: string, to: string, key: string, value: string, seconds: int, waiting: bool)

  // written is a history variable: every (key, value) pair a client has set.
  datatype State = State(nodes: map<string, Node>, pushes: seq<Pushed>, written: set<(string, string)>)

  // A forwarded line may be lost, or delivered with its reply lost, or acknowledged.
  datatype Delivery = Lost | Unacknowledged | Acknowledged

  datatype Step =
    | ViewChange(n: string, view: set<string>)
    | ClientSet(entry: string, key: string, value: string, ttl: int)
    | ClientDel(entry: string, key: string)
    | Replicate(n: string, task: Task, delivered: bool)
    | StartMigration(n: string, only: Option<string>)
    | Send(n: string, job: nat, key: string)
    | Arrive(push: nat, delivery: Delivery)
    | DeletePushed(n: string, key: string)
    | SweepNode(n: string)
    | Crash(n: string)
    | Restart(n: string)

  datatype Event = Event(now: int, step: Step)

  ghost predicate GoodPrefs(pref: Prefs, ids: set<string>) {
    forall key :: Distinct(pref(key)) && forall id :: id in pref(key) <==> id in ids
  }

  // Every node's view contains the node itself and only configured nodes.
  ghost predicate ViewsOk(c: State, ids: set<string>) {
    c.nodes.Keys == ids && forall n :: n in ids ==> n in c.nodes[n].view && c.nodes[n].view <= ids
  }

  function Fresh(ids: set<string>): Node {
    Node(true, ids, map[], multiset{}, [], multiset{})
  }

  function Initial(ids: set<string>): (c: State)
    ensures ViewsOk(c, ids)
  {
    State(map n | n in ids :: Fresh(ids), [], {})
  }

  function OwnerAt(pref: Prefs, c: State, n: string, key: string): string
    requires n in c.nodes
  {
    OwnerIn(pref(key), c.nodes[n].view)
  }

  lemma OwnerIsEarlier(pref: Prefs, ids: set<string>, c: State, n: string, key: string)
    requires GoodPrefs(pref, ids) && ViewsOk(c, ids) && n in ids
    ensures n in pref(key)
    ensures var owner := OwnerAt(pref, c, n, key);
      && owner in ids && owner in c.nodes[n].view && owner in pref(key)
      && (owner != n ==> Rank(pref(key), owner) < Rank(pref(key), n))
  {
    var p := pref(key);
    assert n in p && n in c.nodes[n].view;
    hide OwnerIn, Rank, Distinct;
    OwnerRanksFirst(p, c.nodes[n].view, n);
  }

  // The node a forwarded write ends at; None when some hop cannot reach the next.
  function Route(pref: Prefs, ghost ids: set<string>, c: State, n: string, key: string): (end: Option<string>)
    requires GoodPrefs(pref, ids) && ViewsOk(c, ids) && n in ids
    ensures end.Some? ==> end.value in ids && OwnerAt(pref, c, end.value, key) == end.value
    decreases (OwnerIsEarlier(pref, ids, c, n, key); Rank(pref(key), n))
  {
    OwnerIsEarlier(pref, ids, c, n, key);
    var owner := OwnerAt(pref, c, n, key);
    if owner == n then Some(n)
    else
      OwnerIsEarlier(pref, ids, c, owner, key);
      if c.nodes[owner].up then Route(pref, ids, c, owner, key) else None
  }

  function WithNode(c: State, n: string, node: Node): State {
    c.(nodes := c.nodes[n := node])
  }

  // Which nodes there are, and what each believes about the others.
  ghost predicate SameViews(c: State, c': State) {
    c'.nodes.Keys == c.nodes.Keys && forall n :: n in c.nodes ==> c'.nodes[n].view == c.nodes[n].view
  }

  function Deliver(c: State, n: string, r: Request, now: int): (c': State)
    requires n in c.nodes
    ensures SameViews(c, c') && c'.written == c.written
  {
    WithNode(c, n, c.nodes[n].(table := ApplyLocal(c.nodes[n].table, r, now)))
  }

  // A write at the node that owns the key: the table changes and a replication is started.
  function WriteAt(c: State, n: string, task: Task, now: int): (c': State)
    requires n in c.nodes
    ensures SameViews(c, c') && c'.written == c.written
  {
    var node := c.nodes[n];
    var table := if task.del then node.table - {task.key}
      else SetEntry(node.table, task.key, task.value, task.ttl, now);
    WithNode(c, n, node.(table := table, tasks := node.tasks + multiset{task}))
  }

  function ReplicaAt(pref: Prefs, c: State, n: string, key: string): Option<string>
    requires n in c.nodes
  {
    ReplicaTarget(Take(Keep(pref(key), c.nodes[n].view), 2), n)
  }

  function FinishTask(pref: Prefs, c: State, n: string, task: Task, delivered: bool, now: int): (c': State)
    requires n in c.nodes
    ensures SameViews(c, c') && c'.written == c.written
  {
    var node := c.nodes[n];
    var c1 := WithNode(c, n, node.(tasks := node.tasks - multiset{task}));
    var target := ReplicaAt(pref, c, n, task.key);
    if delivered && target.Some? && target.value in c1.nodes && c1.nodes[target.value].up then
      Deliver(c1, target.value, ReplicaRequest(task.key, task.value, task.ttl, task.del), now)
    else c1
  }

  function Visited(node: Node, j: nat, k: string): (node': Node)
    requires j < |node.jobs|
    ensures node' == node.(jobs := node'.jobs)
  {
    node.(jobs := node.jobs[j := node.jobs[j].(todo := node.jobs[j].todo - {k})])
  }

  // One key of a migration: the TTL is read now, the value is the snapshot's.
  function SendPush(pref: Prefs, c: State, n: string, j: nat, key: string, now: int): (c': State)
    requires n in c.nodes && j < |c.nodes[n].jobs| && key in c.nodes[n].jobs[j].todo
    ensures SameViews(c, c') && c'.written == c.written
  {
    var node := c.nodes[n];
    var job, owner := node.jobs[j], OwnerAt(pref, c, n, key);
    var c1 := WithNode(c, n, Visited(node, j, key));
    if !MustMove(owner, n, job.only) || owner == n || owner !in c.nodes then c1
    else
      var seconds := RemainingSeconds(node.table, key, now);
      c1.(pushes := c.pushes + [Pushed(n, owner, key, job.todo[key], seconds, true)])
  }

  function Without<T>(s: seq<T>, i: nat): (r: seq<T>)
    requires i < |s|
    ensures forall x :: x in r ==> x in s
  {
    s[..i] + s[i + 1..]
  }

  // A push reaches its receiver, if that is up, and its reply the sender, unless either is lost.
  function ArrivePush(c: State, i: nat, delivery: Delivery, now: int): (c': State)
    requires i < |c.pushes|
    ensures SameViews(c, c') && c'.written == c.written
  {
    var p := c.pushes[i];
    var c1 := c.(pushes := Without(c.pushes, i));
    if delivery == Lost || p.to !in c.nodes || !c.nodes[p.to].up then c1
    else
      var c2 := Deliver(c1, p.to, PushRequest(p.key, p.value, p.seconds), now);
      if delivery == Acknowledged && p.waiting && p.from in c.nodes && c.nodes[p.from].up then
        WithNode(c2, p.from, c2.nodes[p.from].(acked := c2.nodes[p.from].acked + multiset{p.key}))
      else c2
  }

  // After the reply the sender deletes its copy.
  function Deleted(node: Node, key: string): (node': Node)
    ensures node'.up == node.up && node'.view == node.view && node'.jobs == node.jobs
  {
    node.(table := node.table - {key}, acked := node.acked - multiset{key})
  }

  // The pushes of a crashed sender may still arrive, but nobody waits for their replies.
  function Orphaned(pushes: seq<Pushed>, n: string): (orphaned: seq<Pushed>)
    ensures |orphaned| == |pushes|
    ensures forall i :: 0 <= i < |pushes| ==>
      orphaned[i] == if pushes[i].from == n then pushes[i].(waiting := false) else pushes[i]
  {
    seq(|pushes|, i requires 0 <= i < |pushes| =>
      if pushes[i].from == n then pushes[i].(waiting := false) else pushes[i])
  }

  // A step whose precondition fails changes nothing.
  function Next(pref: Prefs, ghost ids: set<string>, c: State, e: Event): State
    requires GoodPrefs(pref, ids) && ViewsOk(c, ids)
  {
    match e.step
    case ViewChange(n, view) =>
      if n in c.nodes && c.nodes[n].up && n in view && view <= c.nodes.Keys
        then WithNode(c, n, c.nodes[n].(view := view)) else c
    case ClientSet(entry, key, value, ttl) =>
      if entry in c.nodes && c.nodes[entry].up && Token(key) && Token(value) && ttl <= MAX_INT64 then
        var end := Route(pref, ids, c, entry, key);
        if end.None? then c
        else WriteAt(c, end.value, Task(key, value, ttl, false), e.now).(written := c.written + {(key, value)})
      else c
    case ClientDel(entry, key) =>
      if entry in c.nodes && c.nodes[entry].up && Token(key) then
        var end := Route(pref, ids, c, entry, key);
        if end.None? then c else WriteAt(c, end.value, Task(key, "", 0, true), e.now)
      else c
    case Replicate(n, task, delivered) =>
      if n in c.nodes && c.nodes[n].up && task in c.nodes[n].tasks
        then FinishTask(pref, c, n, task, delivered, e.now) else c
    case StartMigration(n, only) =>
      if n in c.nodes && c.nodes[n].up then
        WithNode(c, n, c.nodes[n].(jobs := c.nodes[n].jobs + [Job(only, Snapshot(c.nodes[n].table, e.now))]))
      else c
    case Send(n, j, key) =>
      if n in c.nodes && c.nodes[n].up && j < |c.nodes[n].jobs| && key in c.nodes[n].jobs[j].todo then
        SendPush(pref, c, n, j, key, e.now)
      else c
    case Arrive(i, delivery) => if i < |c.pushes| then ArrivePush(c, i, delivery, e.now) else c
    case DeletePushed(n, key) =>
      if n in c.nodes && c.nodes[n].up && key in c.nodes[n].acked then WithNode(c, n, Deleted(c.nodes[n], key)) else c
    case SweepNode(n) =>
      if n in c.nodes && c.nodes[n].up then WithNode(c, n, c.nodes[n].(table := Sweep(c.nodes[n].table, e.now))) else c
    case Crash(n) =>
      if n in c.nodes then
        WithNode(c, n, Fresh(c.nodes.Keys).(up := false)).(pushes := Orphaned(c.pushes, n))
      else c
    case Restart(n) =>
      if n in c.nodes && !c.nodes[n].up then WithNode(c, n, Fresh(c.nodes.Keys)) else c
  }

  lemma SameViewsAreOk(c: State, c': State, ids: set<string>)
    requires ViewsOk(c, ids) && SameViews(c, c')
    ensures ViewsOk(c', ids)
  {}

  lemma NodeKeepsViews(c: State, ids: set<string>, n: string, node: Node)
    requires ViewsOk(c, ids) && n in ids && n in node.view && node.view <= ids
    ensures ViewsOk(WithNode(c, n, node), ids)
  {}

  lemma LocalStepKeepsViews(pref: Prefs, ids: set<string>, c: State, e: Event)
    requires GoodPrefs(pref, ids) && ViewsOk(c, ids)
    requires !e.step.ClientSet? && !e.step.ClientDel? && !e.step.Replicate? && !e.step.Send? && !e.step.Arrive?
    ensures ViewsOk(Next(pref, ids, c, e), ids)
  {
    hide Sweep, Snapshot, GoodPrefs, Orphaned, Deleted;
    var n := e.step.n;
    if n in ids {
      NodeKeepsViews(c, ids, n, Next(pref, ids, c, e).nodes[n]);
    }
  }

  lemma NextKeepsViews(pref: Prefs, ids: set<string>, c: State, e: Event)
    requires GoodPrefs(pref, ids) && ViewsOk(c, ids)
    ensures ViewsOk(Next(pref, ids, c, e), ids)
  {
    var c' := Next(pref, ids, c, e);
    if e.step.ClientSet? || e.step.ClientDel? || e.step.Replicate? || e.step.Send? || e.step.Arrive? {
      assert c.nodes.Keys == ids;
      hide WriteAt, FinishTask, SendPush, ArrivePush, Route, Token, GoodPrefs, ViewsOk;
      assert SameViews(c, c');
      SameViewsAreOk(c, c', ids);
    } else {
      hide Next, GoodPrefs, ViewsOk;
      LocalStepKeepsViews(pref, ids, c, e);
    }
  }

  ghost function Run(pref: Prefs, ids: set<string>, c: State, run: seq<Event>): (c': State)
    requires GoodPrefs(pref, ids) && ViewsOk(c, ids)
    ensures ViewsOk(c', ids)
    decreases run
  {
    if run == [] then c
    else
      NextKeepsViews(pref, ids, c, run[0]);
      Run(pref, ids, Next(pref, ids, c, run[0]), run[1..])
  }

  ghost predicate InTimeOrder(run: seq<Event>, start: int) {
    run != [] ==> run[0].now >= start && InTimeOrder(run[1..], run[0].now)
  }

  function EndTime(run: seq<Event>, start: int): int {
    if run == [] then start else run[|run| - 1].now
  }
}
