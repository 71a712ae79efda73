/** Serving a request hop by hop: each node handles it by its own view, forwarding it if need be.
    What comes out is one atomic step of the cluster. */
module Requests {
  import opened Text
  import opened StoreSpec
  import opened Wire
  import opened NodeSpec
  import opened Preference
  import opened Cluster
  import opened Reads

  datatype Served = Served(response: string, state: State)

  // A client request about one key.
  predicate Keyed(r: Request) {
    r.Set? || r.Get? || r.Del? || r.Ttl?
  }

  // The node with what handling a request made of its table and started in the background.
  function Updated(node: Node, out: Outcome): Node {
    if out.spawned.None? then node.(table := out.table)
    else node.(table := out.table, tasks := node.tasks + multiset{out.spawned.value})
  }

  // The request arrives at node n. A node that owns the key answers; any other relays what the
  // owner makes of the same request, if the request gets there and the reply comes back.
  function Serve(pref: Prefs, ghost ids: set<string>, c: State, n: string, r: Request, now: int,
                 order: string -> seq<string>, fate: Fates): (s: Served)
    requires GoodPrefs(pref, ids) && ViewsOk(c, ids) && n in ids && Keyed(r)
    ensures s.state.nodes.Keys == ids
    decreases (OwnerIsEarlier(pref, ids, c, n, r.key); Rank(pref(r.key), n))
  {
    OwnerIsEarlier(pref, ids, c, n, r.key);
    var owner := OwnerAt(pref, c, n, r.key);
    if owner == n then HandleAt(c, n, n, r, now, None, order)
    else if c.nodes[owner].up && fate(n) != Lost then
      OwnerIsEarlier(pref, ids, c, owner, r.key);
      var there := Serve(pref, ids, c, owner, r, now, order, fate);
      HandleAt(there.state, n, owner, r, now, if fate(n) == Acknowledged then Some(there.response) else None, order)
    else HandleAt(c, n, owner, r, now, None, order)
  }

  function HandleAt(c: State, n: string, owner: string, r: Request, now: int, forwarded: Option<string>,
                    order: string -> seq<string>): (s: Served)
    requires n in c.nodes && Keyed(r)
    ensures s.state.nodes.Keys == c.nodes.Keys
  {
    var out := Handle(n, owner, c.nodes[n].table, r, now, forwarded, PollAnswers(c, order(n), r.key, now));
    Served(out.response, WithNode(c, n, Updated(c.nodes[n], out)))
  }

  // The nodes that forward a request, in order.
  ghost function Forwarders(pref: Prefs, ids: set<string>, c: State, n: string, key: string): (hops: seq<string>)
    requires GoodPrefs(pref, ids) && ViewsOk(c, ids) && n in ids
    decreases (OwnerIsEarlier(pref, ids, c, n, key); Rank(pref(key), n))
  {
    OwnerIsEarlier(pref, ids, c, n, key);
    var owner := OwnerAt(pref, c, n, key);
    if owner == n then []
    else
      OwnerIsEarlier(pref, ids, c, owner, key);
      [n] + if c.nodes[owner].up then Forwarders(pref, ids, c, owner, key) else []
  }

  // The request gets to the end of its route.
  ghost predicate GetsThrough(pref: Prefs, ids: set<string>, c: State, n: string, key: string, fate: Fates)
    requires GoodPrefs(pref, ids) && ViewsOk(c, ids) && n in ids
  {
    && Route(pref, ids, c, n, key).Some?
    && forall h :: h in Forwarders(pref, ids, c, n, key) ==> fate(h) != Lost
  }

  // And every reply comes back.
  ghost predicate Answered(pref: Prefs, ids: set<string>, c: State, n: string, key: string, fate: Fates)
    requires GoodPrefs(pref, ids) && ViewsOk(c, ids) && n in ids
  {
    && Route(pref, ids, c, n, key).Some?
    && forall h :: h in Forwarders(pref, ids, c, n, key) ==> fate(h) == Acknowledged
  }

  lemma FirstHop(pref: Prefs, ids: set<string>, c: State, n: string, key: string, fate: Fates)
    requires GoodPrefs(pref, ids) && ViewsOk(c, ids) && n in ids
    ensures OwnerAt(pref, c, n, key) in ids
    ensures var owner := OwnerAt(pref, c, n, key);
      if owner == n then
        && Route(pref, ids, c, n, key) == Some(n)
        && GetsThrough(pref, ids, c, n, key, fate) && Answered(pref, ids, c, n, key, fate)
      else if c.nodes[owner].up then
        && Route(pref, ids, c, n, key) == Route(pref, ids, c, owner, key)
        && (GetsThrough(pref, ids, c, n, key, fate) <==> fate(n) != Lost && GetsThrough(pref, ids, c, owner, key, fate))
        && (Answered(pref, ids, c, n, key, fate)
          <==> fate(n) == Acknowledged && Answered(pref, ids, c, owner, key, fate))
      else
        && Route(pref, ids, c, n, key).None?
        && !GetsThrough(pref, ids, c, n, key, fate) && !Answered(pref, ids, c, n, key, fate)
  {
    OwnerIsEarlier(pref, ids, c, n, key);
    var owner := OwnerAt(pref, c, n, key);
    if owner != n {
      OwnerIsEarlier(pref, ids, c, owner, key);
      if c.nodes[owner].up {
        assert Forwarders(pref, ids, c, n, key) == [n] + Forwarders(pref, ids, c, owner, key);
      }
    }
  }

  // The state after a write that gets to the end of its route, and otherwise.
  ghost function Written(pref: Prefs, ids: set<string>, c: State, n: string, task: Task, now: int, fate: Fates): State
    requires GoodPrefs(pref, ids) && ViewsOk(c, ids) && n in ids
  {
    if GetsThrough(pref, ids, c, n, task.key, fate)
      then WriteAt(c, Route(pref, ids, c, n, task.key).value, task, now) else c
  }

  lemma RelayChangesNothing(c: State, n: string, owner: string, r: Request, now: int, forwarded: Option<string>,
                            order: string -> seq<string>)
    requires n in c.nodes && Keyed(r) && owner != n
    ensures var s := HandleAt(c, n, owner, r, now, forwarded, order);
      && s.state == c
      && (!r.Get? && forwarded.Some? ==> s.response == forwarded.value)
      && (!r.Get? && forwarded.None? ==>
        s.response == "ERR forward to " + owner && s.response != "OK" && s.response != "MISS")
  {
    hide GetAnswer, Itoa;
    assert ("ERR forward to " + owner)[0] == 'E';
    assert c.nodes[n := c.nodes[n]] == c.nodes;
  }

  // One hop of a request that is not a read.
  lemma OneHop(pref: Prefs, ids: set<string>, c: State, n: string, r: Request, now: int, order: string -> seq<string>,
               fate: Fates)
    requires GoodPrefs(pref, ids) && ViewsOk(c, ids) && n in ids && Keyed(r) && !r.Get?
    ensures OwnerAt(pref, c, n, r.key) in ids
    ensures var owner, s := OwnerAt(pref, c, n, r.key), Serve(pref, ids, c, n, r, now, order, fate);
      if owner == n then s == HandleAt(c, n, n, r, now, None, order)
      else if c.nodes[owner].up && fate(n) != Lost then
        var there := Serve(pref, ids, c, owner, r, now, order, fate);
        && s.state == there.state
        && (if fate(n) == Acknowledged then s.response == there.response
          else s.response != "OK" && s.response != "MISS")
      else s.state == c && s.response != "OK" && s.response != "MISS"
  {
    OwnerIsEarlier(pref, ids, c, n, r.key);
    hide HandleAt;
    var owner := OwnerAt(pref, c, n, r.key);
    if owner != n {
      if c.nodes[owner].up && fate(n) != Lost {
        var there := Serve(pref, ids, c, owner, r, now, order, fate);
        var forwarded := if fate(n) == Acknowledged then Some(there.response) else None;
        RelayChangesNothing(there.state, n, owner, r, now, forwarded, order);
      } else {
        RelayChangesNothing(c, n, owner, r, now, None, order);
      }
    }
  }

  /** A SET entering anywhere is one atomic write at the end of its route exactly when no hop lost it,
      and changes nothing otherwise; it is answered OK exactly when, besides, no reply was lost. So OK
      means that the write happened, but an error does not mean that it did not. A TTL field that is
      no positive number changes nothing. */
  lemma {:induction false} SetIsOneWrite(pref: Prefs, ids: set<string>, c: State, n: string, key: string, value: string,
                                         seconds: Option<string>, now: int, order: string -> seq<string>, fate: Fates)
    requires GoodPrefs(pref, ids) && ViewsOk(c, ids) && n in ids
    ensures var s, ttl := Serve(pref, ids, c, n, Set(key, value, seconds), now, order, fate), RequestedTtl(seconds);
      && (s.response == "OK" <==> ttl.Some? && Answered(pref, ids, c, n, key, fate))
      && s.state == if ttl.None? then c else Written(pref, ids, c, n, Task(key, value, ttl.value, false), now, fate)
    decreases (OwnerIsEarlier(pref, ids, c, n, key); Rank(pref(key), n))
  {
    var owner, r := OwnerAt(pref, c, n, key), Set(key, value, seconds);
    FirstHop(pref, ids, c, n, key, fate);
    OneHop(pref, ids, c, n, r, now, order, fate);
    hide Serve, Route, GetsThrough, Answered, RequestedTtl;
    if owner == n {
      assert c.nodes[n := c.nodes[n]] == c.nodes;
    } else if c.nodes[owner].up && fate(n) != Lost {
      OwnerIsEarlier(pref, ids, c, n, key);
      SetIsOneWrite(pref, ids, c, owner, key, value, seconds, now, order, fate);
    }
  }

  /** The same for DEL, whose answer also tells whether that node had the key. */
  lemma {:induction false} DelIsOneWrite(pref: Prefs, ids: set<string>, c: State, n: string, key: string, now: int,
                                         order: string -> seq<string>, fate: Fates)
    requires GoodPrefs(pref, ids) && ViewsOk(c, ids) && n in ids
    ensures var s, end := Serve(pref, ids, c, n, Del(key), now, order, fate), Route(pref, ids, c, n, key);
      && (s.response == "OK" <==> Answered(pref, ids, c, n, key, fate) && end.Some? && key in c.nodes[end.value].table)
      && (s.response == "MISS"
        <==> Answered(pref, ids, c, n, key, fate) && end.Some? && key !in c.nodes[end.value].table)
      && s.state == Written(pref, ids, c, n, Task(key, "", 0, true), now, fate)
    decreases (OwnerIsEarlier(pref, ids, c, n, key); Rank(pref(key), n))
  {
    var owner := OwnerAt(pref, c, n, key);
    FirstHop(pref, ids, c, n, key, fate);
    OneHop(pref, ids, c, n, Del(key), now, order, fate);
    hide Serve, Route, GetsThrough, Answered;
    if owner != n && c.nodes[owner].up && fate(n) != Lost {
      OwnerIsEarlier(pref, ids, c, n, key);
      DelIsOneWrite(pref, ids, c, owner, key, now, order, fate);
    }
  }

  /** A GET changes no table and starts nothing, whatever is lost, and its answer is what Read says. */
  lemma {:induction false} GetIsRead(pref: Prefs, ids: set<string>, c: State, n: string, key: string, now: int,
                                     order: string -> seq<string>, fate: Fates)
    requires GoodPrefs(pref, ids) && ViewsOk(c, ids) && n in ids
    ensures Serve(pref, ids, c, n, Get(key), now, order, fate)
      == Served(Read(pref, ids, c, n, key, now, order, fate), c)
    decreases (OwnerIsEarlier(pref, ids, c, n, key); Rank(pref(key), n))
  {
    OwnerIsEarlier(pref, ids, c, n, key);
    var owner := OwnerAt(pref, c, n, key);
    GetHere(c, n, owner, key, now, None, order);
    hide GetAnswer, HandleAt;
    if owner != n && c.nodes[owner].up {
      OwnerIsEarlier(pref, ids, c, owner, key);
      GetIsRead(pref, ids, c, owner, key, now, order, fate);
      GetHere(c, n, owner, key, now, Some(Read(pref, ids, c, owner, key, now, order, fate)), order);
    }
  }

  lemma GetHere(c: State, n: string, owner: string, key: string, now: int, forwarded: Option<string>,
                order: string -> seq<string>)
    requires n in c.nodes
    ensures HandleAt(c, n, owner, Get(key), now, forwarded, order)
      == Served(GetAnswer(owner == n, c.nodes[n].table, key, now, forwarded, PollAnswers(c, order(n), key, now)), c)
  {
    hide GetAnswer;
    assert c.nodes[n := c.nodes[n]] == c.nodes;
  }

  predicate TellsTtl(response: string, t: Table, key: string, now: int)
    ensures TellsTtl(response, t, key, now) ==> (response == "MISS" <==> Lookup(t, key, now).None?)
  {
    assert Lookup(t, key, now).Some? && t[key].expiresAt.Some? ==>
      IsDigit(Itoa((t[key].expiresAt.value - now) / SECOND)[0]);
    if Lookup(t, key, now).None? then response == "MISS"
    else if t[key].expiresAt.None? then response == "-1"
    else response == Itoa((t[key].expiresAt.value - now) / SECOND)
  }

  lemma TtlHere(c: State, n: string, key: string, now: int, order: string -> seq<string>)
    requires n in c.nodes
    ensures var s := HandleAt(c, n, n, Ttl(key), now, None, order);
      s.state == c && TellsTtl(s.response, c.nodes[n].table, key, now)
  {
    hide Itoa, GetAnswer;
    assert c.nodes[n := c.nodes[n]] == c.nodes;
  }

  /** A TTL request changes nothing; unless something is lost it is answered by the end of its route:
      MISS iff that node has no live copy, -1 for a copy that never expires, else the whole seconds left. */
  lemma {:induction false} TtlIsRouted(pref: Prefs, ids: set<string>, c: State, n: string, key: string, now: int,
                                       order: string -> seq<string>, fate: Fates)
    requires GoodPrefs(pref, ids) && ViewsOk(c, ids) && n in ids
    ensures var s, end := Serve(pref, ids, c, n, Ttl(key), now, order, fate), Route(pref, ids, c, n, key);
      && s.state == c
      && (!Answered(pref, ids, c, n, key, fate) ==> s.response != "MISS")
      && (Answered(pref, ids, c, n, key, fate) ==>
        end.Some? && TellsTtl(s.response, c.nodes[end.value].table, key, now))
    decreases (OwnerIsEarlier(pref, ids, c, n, key); Rank(pref(key), n))
  {
    var owner := OwnerAt(pref, c, n, key);
    FirstHop(pref, ids, c, n, key, fate);
    OneHop(pref, ids, c, n, Ttl(key), now, order, fate);
    hide Serve, Route, GetsThrough, Answered, TellsTtl, HandleAt;
    if owner == n {
      TtlHere(c, n, key, now, order);
    } else if c.nodes[owner].up && fate(n) != Lost {
      OwnerIsEarlier(pref, ids, c, n, key);
      TtlIsRouted(pref, ids, c, owner, key, now, order, fate);
    }
  }

  /** The clients' steps of the cluster are such requests: what the nodes make of a SET or DEL that
      reaches one of them is the ClientSet or ClientDel step if it gets through, and nothing
      otherwise, so everything proved of runs holds of served requests. */
  lemma ServedWritesAreSteps(pref: Prefs, ids: set<string>, c: State, n: string, key: string, value: string,
                             seconds: Option<string>, now: int, order: string -> seq<string>, fate: Fates)
    requires GoodPrefs(pref, ids) && ViewsOk(c, ids) && n in ids && c.nodes[n].up && Token(key) && Token(value)
    ensures var s := Serve(pref, ids, c, n, Set(key, value, seconds), now, order, fate);
      if RequestedTtl(seconds).None? || !GetsThrough(pref, ids, c, n, key, fate) then s.state == c
      else
        && s.state.nodes == Next(pref, ids, c, Event(now, ClientSet(n, key, value, RequestedTtl(seconds).value))).nodes
        && s.state.pushes == c.pushes
    ensures Serve(pref, ids, c, n, Del(key), now, order, fate).state
         == if GetsThrough(pref, ids, c, n, key, fate) then Next(pref, ids, c, Event(now, ClientDel(n, key))) else c
  {
    hide Serve, Route, Handle, Token, WriteAt, Atoi;
    SetIsOneWrite(pref, ids, c, n, key, value, seconds, now, order, fate);
    DelIsOneWrite(pref, ids, c, n, key, now, order, fate);
    hide Answered;
    if RequestedTtl(seconds).Some? && GetsThrough(pref, ids, c, n, key, fate) {
      WriteKeepsPushes(c, Route(pref, ids, c, n, key).value, Task(key, value, RequestedTtl(seconds).value, false), now);
    }
  }

  lemma WriteKeepsPushes(c: State, n: string, task: Task, now: int)
    requires n in c.nodes
    ensures WriteAt(c, n, task, now).pushes == c.pushes
  {}
}
