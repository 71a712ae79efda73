/** What one node answers, stores and sends, given what the network answers it. */
module NodeSpec {
  import opened Text
  import opened StoreSpec
  import opened Wire

  // A write waiting to be copied to the replica by a replicate goroutine.
  datatype Task = Task(key: string, value: string, ttl: int, del: bool)

  // What another node does with an internal request.
  function ApplyLocal(t: Table, r: Request, now: int): Table {
    match r
    case LocalSet(key, value, ttl) => SetEntry(t, key, value, ttl, now)
    case LocalDel(key) => t - {key}
    case _ => t
  }

  // The answer to LOCALGET: a miss and the stored text MISS look the same.
  function LocalAnswer(t: Table, key: string, now: int): string {
    match Lookup(t, key, now)
    case Some(v) => v
    case None => "MISS"
  }

  // The first poll answer that is neither an error nor MISS.
  function FirstHit(polls: seq<Option<string>>): Option<string> {
    if polls == [] then None
    else if polls[0].Some? && polls[0].value != "MISS" then polls[0]
    else FirstHit(polls[1..])
  }

  // readFromAnyPeer: the own table, then every peer in turn.
  function FromAnyPeer(t: Table, key: string, now: int, polls: seq<Option<string>>): Option<string> {
    var own := Lookup(t, key, now);
    if own.Some? then own else FirstHit(polls)
  }

  function OrMiss(v: Option<string>): string {
    if v.Some? then v.value else "MISS"
  }

  // GET: forwarded is the owner's answer, None when the owner cannot be reached.
  function GetAnswer(isOwner: bool, t: Table, key: string, now: int, forwarded: Option<string>,
                     polls: seq<Option<string>>): string {
    if isOwner then
      var own := Lookup(t, key, now);
      if own.Some? then own.value else OrMiss(FromAnyPeer(t, key, now, polls))
    else if forwarded.Some? then forwarded.value
    else OrMiss(FromAnyPeer(t, key, now, polls))
  }

  // The node replicate sends to, from the two preferred nodes of the sender's ring.
  function ReplicaTarget(preferred: seq<string>, self: string): Option<string> {
    if |preferred| < 2 || preferred[1] == self then None else Some(preferred[1])
  }

  // Whether a migration pushes a key with the given owner: owned elsewhere or, for a rebalance to a
  // recovered node, owned by that node.
  predicate MustMove(owner: string, self: string, only: Option<string>) {
    if only.Some? then owner == only.value else owner != self
  }

  // SET's TTL field: absent, or a positive number of seconds.
  function RequestedTtl(seconds: Option<string>): Option<int> {
    if seconds.None? then Some(0)
    else if Atoi(seconds.value).None? || Atoi(seconds.value).value <= 0 then None
    else Some(Duration(Atoi(seconds.value).value))
  }

  datatype Outcome = Outcome(response: string, table: Table, spawned: Option<Task>)

  // Any request but MIGRATE and the reporting ones, at a node whose ring names the given owner.
  function Handle(self: string, owner: string, t: Table, r: Request, now: int, forwarded: Option<string>,
                  polls: seq<Option<string>>): Outcome
    requires !r.Migrate? && !r.Report?
  {
    var relayed := if forwarded.Some? then forwarded.value else "ERR forward to " + owner;
    match r
    case Blank => Outcome("ERR empty command", t, None)
    case Ping => Outcome("PONG " + self, t, None)
    case LocalSet(_, _, _) => Outcome("OK", ApplyLocal(t, r, now), None)
    case LocalDel(_) => Outcome("OK", ApplyLocal(t, r, now), None)
    case LocalGet(key) => Outcome(LocalAnswer(t, key, now), t, None)
    case Set(key, value, seconds) =>
      if owner != self then Outcome(relayed, t, None)
      else (match RequestedTtl(seconds)
            case None => Outcome("ERR invalid TTL", t, None)
            case Some(ttl) => Outcome("OK", SetEntry(t, key, value, ttl, now), Some(Task(key, value, ttl, false))))
    case Get(key) => Outcome(GetAnswer(owner == self, t, key, now, forwarded, polls), t, None)
    case Del(key) =>
      if owner != self then Outcome(relayed, t, None)
      else Outcome(if key in t then "OK" else "MISS", t - {key}, Some(Task(key, "", 0, true)))
    case Ttl(key) =>
      if owner != self then Outcome(relayed, t, None)
      else
        var s := RemainingSeconds(t, key, now);
        Outcome(if s == -2 then "MISS" else if s == -1 then "-1" else Itoa(s), t, None)
    case TooShort(usage) => Outcome(usage, t, None)
    case Unknown(name) => Outcome("ERR unknown command " + name, t, None)
  }
}
