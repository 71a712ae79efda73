/** From lines to effects: what the commands a client or another node sends mean, and what a node
    that receives them does. */
module Protocol {
  import opened Text
  import opened StoreSpec
  import opened Wire
  import opened NodeSpec
  import opened Cluster
  import opened Reads
  import opened Preference
  import RingSpec
  import Server

  // ---------------------------------------------------------------- commands in any letter case

  // w is the word, each letter in upper or lower case.
  predicate AnyCase(w: string, word: string) {
    |w| == |word| && forall i :: 0 <= i < |w| ==> w[i] == word[i] || w[i] as int == word[i] as int + 32
  }

  predicate Capitals(word: string) {
    forall i :: 0 <= i < |word| ==> 'A' <= word[i] <= 'Z'
  }

  lemma AnyCaseIff(w: string, word: string)
    requires Capitals(word)
    ensures Upper(w) == word <==> AnyCase(w, word)
  {
    if AnyCase(w, word) {
      assert forall i :: 0 <= i < |w| ==> Upper(w)[i] == word[i];
    }
    if Upper(w) == word {
      assert forall i :: 0 <= i < |w| ==> UpperChar(w[i]) == word[i];
    }
  }

  lemma CommandsAreCapitals()
    ensures Capitals("PING") && Capitals("LOCALSET") && Capitals("LOCALGET") && Capitals("LOCALDEL")
    ensures Capitals("SET") && Capitals("GET") && Capitals("DEL") && Capitals("TTL") && Capitals("MIGRATE")
  {}

  lemma CommandsDiffer()
    ensures "LOCALGET" != "LOCALSET" && "LOCALDEL" != "LOCALSET" && "LOCALDEL" != "LOCALGET"
    ensures "GET" != "SET" && "DEL" != "SET" && "DEL" != "GET" && "TTL" != "SET" && "TTL" != "GET" && "TTL" != "DEL"
  {
    assert "LOCALGET"[5] != "LOCALSET"[5] && "LOCALDEL"[5] != "LOCALSET"[5] && "LOCALDEL"[5] != "LOCALGET"[5];
    assert "GET"[0] != "SET"[0] && "DEL"[0] != "SET"[0] && "DEL"[0] != "GET"[0];
    assert "TTL"[0] != "SET"[0] && "TTL"[0] != "GET"[0] && "TTL"[0] != "DEL"[0];
  }

  lemma KeyCommands(w: string, parts: seq<string>)
    requires |parts| >= 2 && parts[0] == w
    ensures Upper(w) == "LOCALGET" ==> Understand(parts) == LocalGet(parts[1])
    ensures Upper(w) == "LOCALDEL" ==> Understand(parts) == LocalDel(parts[1])
    ensures Upper(w) == "GET" ==> Understand(parts) == Get(parts[1])
    ensures Upper(w) == "DEL" ==> Understand(parts) == Del(parts[1])
    ensures Upper(w) == "TTL" ==> Understand(parts) == Ttl(parts[1])
  {
    CommandsDiffer();
    hide Upper, OptionalTtl;
  }

  /** A command word and a key, in any letter case: exactly that request for exactly that key. */
  lemma KeyLinesMean(w: string, key: string)
    requires Token(w) && Token(key)
    ensures var r := Parse(w + " " + key);
      && (AnyCase(w, "GET") ==> r == Get(key))
      && (AnyCase(w, "DEL") ==> r == Del(key))
      && (AnyCase(w, "TTL") ==> r == Ttl(key))
      && (AnyCase(w, "LOCALGET") ==> r == LocalGet(key))
      && (AnyCase(w, "LOCALDEL") ==> r == LocalDel(key))
  {
    CommandsAreCapitals();
    hide Token, Understand, Fields, Upper, AnyCase, Capitals;
    FieldsOfTwo(w, key);
    KeyCommands(w, [w, key]);
    AnyCaseIff(w, "GET");
    AnyCaseIff(w, "DEL");
    AnyCaseIff(w, "TTL");
    AnyCaseIff(w, "LOCALGET");
    AnyCaseIff(w, "LOCALDEL");
  }

  lemma SetCommand(w: string, parts: seq<string>)
    requires |parts| >= 3 && parts[0] == w && Upper(w) == "SET"
    ensures Understand(parts) == Set(parts[1], parts[2], if |parts| >= 4 then Some(parts[3]) else None)
  {
    CommandsDiffer();
    hide Upper, OptionalTtl;
  }

  /** SET in any letter case: key, value and the optional third word in their places. */
  lemma SetLinesMean(w: string, key: string, value: string, seconds: string)
    requires Token(w) && AnyCase(w, "SET") && Token(key) && Token(value) && Token(seconds)
    ensures Parse(w + " " + key + " " + value) == Set(key, value, None)
    ensures Parse(w + " " + key + " " + value + " " + seconds) == Set(key, value, Some(seconds))
  {
    CommandsAreCapitals();
    hide Token, Understand, Fields, Upper, AnyCase, Capitals;
    AnyCaseIff(w, "SET");
    FieldsOfThree(w, key, value);
    FieldsOfFour(w, key, value, seconds);
    SetCommand(w, [w, key, value]);
    SetCommand(w, [w, key, value, seconds]);
  }

  lemma LocalSetCommand(w: string, parts: seq<string>)
    requires |parts| >= 3 && parts[0] == w && Upper(w) == "LOCALSET"
    ensures Understand(parts) == LocalSet(parts[1], parts[2], OptionalTtl(parts))
  {
    hide Upper, OptionalTtl;
  }

  /** LOCALSET in any letter case: key, value, and the TTL if the third word is a positive number; any other
      third word is ignored. */
  lemma LocalSetLinesMean(w: string, key: string, value: string, seconds: string)
    requires Token(w) && AnyCase(w, "LOCALSET") && Token(key) && Token(value) && Token(seconds)
    ensures Parse(w + " " + key + " " + value) == LocalSet(key, value, 0)
    ensures var n := Atoi(seconds);
      Parse(w + " " + key + " " + value + " " + seconds)
        == LocalSet(key, value, if n.Some? && n.value > 0 then Duration(n.value) else 0)
  {
    CommandsAreCapitals();
    hide Token, Understand, Fields, Upper, AnyCase, Capitals, Atoi, Duration;
    AnyCaseIff(w, "LOCALSET");
    FieldsOfThree(w, key, value);
    FieldsOfFour(w, key, value, seconds);
    LocalSetCommand(w, [w, key, value]);
    LocalSetCommand(w, [w, key, value, seconds]);
  }

  /** PING, alone on its line. */
  lemma PingLineMeans(w: string)
    requires Token(w) && AnyCase(w, "PING")
    ensures Parse(w) == Request.Ping
  {
    CommandsAreCapitals();
    AnyCaseIff(w, "PING");
    FieldsOfLastToken(w);
  }

  const KEY_COMMANDS: set<string> := {"LOCALGET", "LOCALDEL", "GET", "DEL", "TTL"}
  const SET_COMMANDS: set<string> := {"LOCALSET", "SET"}
  const REPORTS: set<string> := {"INFO", "CLUSTER", "KEYS", "KEYSTTL"}

  /** Exactly which lines are blank, too short, unknown, or no request about a key: the words decide. */
  lemma OtherLinesIff(line: string)
    ensures var words, r := Fields(line), Parse(line);
      && (r.Blank? <==> words == [])
      && (words != [] ==>
            var cmd := Upper(words[0]);
            && (r.TooShort? <==> (cmd in KEY_COMMANDS && |words| < 2) || (cmd in SET_COMMANDS && |words| < 3))
            && (r.Unknown? <==> cmd !in KEY_COMMANDS + SET_COMMANDS + REPORTS + {"PING", "MIGRATE"})
            && (r.Unknown? ==> r.name == cmd)
            && (r.Migrate? <==> cmd == "MIGRATE")
            && (r.Report? <==> cmd in REPORTS))
  {
    hide Fields, Upper, OptionalTtl;
    CommandsDiffer();
  }

  /** Lines that are blank, too short or unknown are answered with an error and change nothing. */
  lemma BadLinesAreRefused(self: string, owner: string, t: Table, line: string, now: int, forwarded: Option<string>,
                           polls: seq<Option<string>>)
    requires var r := Parse(line); r.Blank? || r.TooShort? || r.Unknown?
    ensures var out := Handle(self, owner, t, Parse(line), now, forwarded, polls);
      out.table == t && out.spawned.None? && |out.response| >= 4 && out.response[..4] == "ERR "
  {
    UsagesAreErrors(line);
    hide Parse;
    var r := Parse(line);
    assert r.Unknown? ==> ("ERR unknown command " + r.name)[..4] == "ERR ";
    assert "ERR empty command"[..4] == "ERR ";
  }

  lemma UsagesAreErrors(line: string)
    ensures var r := Parse(line); r.TooShort? ==> |r.usage| >= 4 && r.usage[..4] == "ERR "
  {
    hide Fields, Upper, OptionalTtl;
    assert "ERR LOCALSET key value [ttl]"[..4] == "ERR " && "ERR LOCALGET key"[..4] == "ERR ";
    assert "ERR LOCALDEL key"[..4] == "ERR " && "ERR SET key value [ttl]"[..4] == "ERR ";
    assert "ERR GET key"[..4] == "ERR " && "ERR DEL key"[..4] == "ERR " && "ERR TTL key"[..4] == "ERR ";
  }

  // ---------------------------------------------------------------- internal lines

  /** What a node does with an internal request is what the cluster's steps assume: a LOCALSET or
      LOCALDEL is answered OK and changes the table as its delivery does, a LOCALGET gets the answer
      polls count on, a PING is answered PONG, and none of them starts a replication. */
  lemma InternalRequestsAreDeliveries(c: State, n: string, owner: string, r: Request, now: int,
                                      forwarded: Option<string>, polls: seq<Option<string>>)
    requires n in c.nodes && (r.LocalSet? || r.LocalDel? || r.LocalGet? || r.Ping?)
    ensures var node, out := c.nodes[n], Handle(n, owner, c.nodes[n].table, r, now, forwarded, polls);
      && out.spawned.None?
      && (r.LocalSet? || r.LocalDel? ==> out.response == "OK" && out.table == Deliver(c, n, r, now).nodes[n].table)
      && (r.LocalGet? ==> out.table == node.table && (node.up ==> Some(out.response) == PollAnswer(c, n, r.key, now)))
      && (r.Ping? ==> out.table == node.table && |out.response| >= 4 && out.response[..4] == "PONG")
  {
    hide SetEntry, Lookup;
    assert ("PONG " + n)[..4] == "PONG";
  }

  // t' holds the value under the key until the given time, or for ever; other keys are as in t.
  ghost predicate HoldsUntil(t: Table, t': Table, key: string, value: string, until: Option<int>) {
    && (forall now :: Lookup(t', key, now) == if until.Some? && now > until.value then None else Some(value))
    && SameBut(t, t', key)
  }

  ghost predicate SameBut(t: Table, t': Table, key: string) {
    forall k :: k != key ==> (k in t <==> k in t') && (k in t ==> t'[k] == t[k])
  }

  /** A printed replication line, received: the replica has the value until the TTL, in whole seconds, is
      over, or no longer has the key; nothing else changes. A TTL below one second is lost. */
  lemma ReplicationLineTakesEffect(self: string, owner: string, t: Table, key: string, value: string, ttl: int,
                                   del: bool, now: int, forwarded: Option<string>, polls: seq<Option<string>>)
    requires Token(key) && (!del ==> Token(value)) && ttl <= MAX_INT64
    ensures var r := Parse(ReplicaCommand(key, value, ttl, del));
      && !r.Migrate? && !r.Report?
      && var out := Handle(self, owner, t, r, now, forwarded, polls);
         && out.response == "OK" && out.spawned.None?
         && (if del then key !in out.table && SameBut(t, out.table, key)
             else
               var until := if ttl >= SECOND then Some(now + ttl / SECOND * SECOND) else None;
               HoldsUntil(t, out.table, key, value, until))
  {
    hide Parse, ReplicaCommand, Token;
    ReplicaRoundTrip(key, value, ttl, del);
  }

  /** The same for a printed push with the given TTL answer. */
  lemma PushLineTakesEffect(self: string, owner: string, t: Table, key: string, value: string, seconds: int, now: int,
                            forwarded: Option<string>, polls: seq<Option<string>>)
    requires Token(key) && Token(value) && seconds <= MAX_SECONDS
    ensures var r := Parse(PushCommand(key, value, seconds));
      && !r.Migrate? && !r.Report?
      && var out := Handle(self, owner, t, r, now, forwarded, polls);
         && out.response == "OK" && out.spawned.None?
         && HoldsUntil(t, out.table, key, value, if seconds > 0 then Some(now + seconds * SECOND) else None)
  {
    hide Parse, PushCommand, Token;
    PushRoundTrip(key, value, seconds);
  }

  /** A poll line, received: the value if there is a live one, else MISS. */
  lemma PollLineIsAnswered(self: string, owner: string, t: Table, key: string, now: int, forwarded: Option<string>,
                           polls: seq<Option<string>>)
    requires Token(key)
    ensures var r := Parse("LOCALGET " + key);
      && !r.Migrate? && !r.Report?
      && var out := Handle(self, owner, t, r, now, forwarded, polls);
         && out.table == t && out.spawned.None?
         && out.response == if Lookup(t, key, now).Some? then Lookup(t, key, now).value else "MISS"
  {
    PollLineMeans(key);
    hide Parse, Lookup;
  }

  lemma PollLineMeans(key: string)
    requires Token(key)
    ensures Parse("LOCALGET " + key) == LocalGet(key)
  {
    assert Token("LOCALGET") && AnyCase("LOCALGET", "LOCALGET");
    hide Token, Parse, AnyCase;
    KeyLinesMean("LOCALGET", key);
    assert "LOCALGET" + " " + key == "LOCALGET " + key;
  }

  // ---------------------------------------------------------------- client lines

  /** GET and TTL lines change nothing and start nothing; a GET at the owner answers its live value. */
  lemma ReadLinesTakeEffect(w: string, self: string, owner: string, t: Table, key: string, now: int,
                            forwarded: Option<string>, polls: seq<Option<string>>)
    requires Token(w) && Token(key) && (AnyCase(w, "GET") || AnyCase(w, "TTL"))
    ensures var r := Parse(w + " " + key);
      && !r.Migrate? && !r.Report?
      && var out := Handle(self, owner, t, r, now, forwarded, polls);
         && out.table == t && out.spawned.None?
         && (AnyCase(w, "GET") && owner == self && Lookup(t, key, now).Some? ==>
               out.response == Lookup(t, key, now).value)
  {
    KeyLinesMean(w, key);
    hide Parse, Token, Lookup, Itoa;
  }

  /** A DEL line at the owner removes exactly that key, starts its replication, and says whether the table
      had it; elsewhere it changes nothing. */
  lemma DelLineTakesEffect(w: string, self: string, owner: string, t: Table, key: string, now: int,
                           forwarded: Option<string>, polls: seq<Option<string>>)
    requires Token(w) && Token(key) && AnyCase(w, "DEL")
    ensures var r := Parse(w + " " + key);
      && !r.Migrate? && !r.Report?
      && var out := Handle(self, owner, t, r, now, forwarded, polls);
         if owner == self then
           && key !in out.table && SameBut(t, out.table, key)
           && out.spawned == Some(Task(key, "", 0, true)) && out.response == if key in t then "OK" else "MISS"
         else out.table == t && out.spawned.None?
  {
    KeyLinesMean(w, key);
    hide Parse, Token, AnyCase;
  }

  // What a client sends to set a key, for ever or for a number of seconds.
  function SetLine(w: string, key: string, value: string, seconds: nat): string {
    if seconds > 0 then w + " " + key + " " + value + " " + Itoa(seconds) else w + " " + key + " " + value
  }

  lemma SetLineParses(w: string, key: string, value: string, seconds: nat)
    requires Token(w) && AnyCase(w, "SET") && Token(key) && Token(value) && seconds <= MAX_INT64
    ensures Parse(SetLine(w, key, value, seconds)) == Set(key, value, if seconds > 0 then Some(Itoa(seconds)) else None)
  {
    hide Parse, Token, AnyCase, Atoi, Itoa;
    AtoiOfItoa(seconds);
    SetLinesMean(w, key, value, Itoa(seconds));
  }

  lemma SetTtlIs(seconds: nat)
    requires seconds <= MAX_SECONDS
    ensures RequestedTtl(if seconds > 0 then Some(Itoa(seconds)) else None) == Some(seconds * SECOND)
  {
    hide Itoa, Atoi, Duration;
    AtoiOfItoa(seconds);
    if seconds > 0 {
      DurationExactIff(seconds);
    }
  }

  lemma EntryHoldsUntil(t: Table, key: string, value: string, ttl: int, now: int)
    ensures HoldsUntil(t, SetEntry(t, key, value, ttl, now), key, value, if ttl > 0 then Some(now + ttl) else None)
  {}

  /** A SET line at the owner, without TTL or with one from 1 up to the longest: the value is there until
      exactly that many seconds after the write, or for ever, and its replication carries that TTL. */
  lemma SetLineTakesEffect(w: string, self: string, t: Table, key: string, value: string, seconds: nat, now: int,
                           forwarded: Option<string>, polls: seq<Option<string>>)
    requires Token(w) && AnyCase(w, "SET") && Token(key) && Token(value) && seconds <= MAX_SECONDS
    ensures var r := Parse(SetLine(w, key, value, seconds));
      && !r.Migrate? && !r.Report?
      && var out := Handle(self, self, t, r, now, forwarded, polls);
         && out.response == "OK" && out.spawned == Some(Task(key, value, seconds * 1_000_000_000, false))
         && HoldsUntil(t, out.table, key, value, if seconds > 0 then Some(now + seconds * 1_000_000_000) else None)
  {
    hide Parse, Token, AnyCase, Itoa, SetLine, SetEntry, HoldsUntil, RequestedTtl;
    SetLineParses(w, key, value, seconds);
    SetTtlIs(seconds);
    EntryHoldsUntil(t, key, value, seconds * SECOND, now);
  }

  /** SET's third word is refused exactly if it is no decimal number or not a positive one. */
  lemma TtlRefusedIff(self: string, t: Table, key: string, value: string, seconds: string, now: int,
                      forwarded: Option<string>, polls: seq<Option<string>>)
    ensures var out := Handle(self, self, t, Set(key, value, Some(seconds)), now, forwarded, polls);
      var refused := Atoi(seconds).None? || Atoi(seconds).value <= 0;
      if refused then out == Outcome("ERR invalid TTL", t, None) else out.response == "OK" && out.spawned.Some?
  {
    hide Atoi, Duration, SetEntry;
  }

  // ---------------------------------------------------------------- sweeps

  /** A sweep removes exactly the expired entries, so that a DEL afterwards answers MISS for them. */
  lemma SweptIsGone(self: string, t: Table, key: string, now: int, forwarded: Option<string>,
                    polls: seq<Option<string>>)
    ensures var swept := Sweep(t, now);
      && (key in swept <==> key in t && !(t[key].expiresAt.Some? && now > t[key].expiresAt.value))
      && (key in swept ==> swept[key] == t[key])
      && Handle(self, self, swept, Del(key), now, forwarded, polls).response == (if key in swept then "OK" else "MISS")
  {}

  /** The whole seconds TTL answers with: the time left, rounded down. */
  lemma RemainingIsRoundedDown(t: Table, key: string, now: int)
    requires key in t && t[key].expiresAt.Some? && now <= t[key].expiresAt.value
    ensures var s, left := RemainingSeconds(t, key, now), t[key].expiresAt.value - now;
      s * 1_000_000_000 <= left < (s + 1) * 1_000_000_000
  {}

  /** What a node's migration loop sends is what the cluster's Send step puts on its way: with a canonical ring
      of its view's members, a snapshot's key is pushed by the loop iff it is by the step, to the same node, and
      the printed line parses to what the step's message stands for. */
  lemma PushesAreSends(hash: RingSpec.Hash, u: RingSpec.RingState, s: RingSpec.RingState, c: State, n: string, j: nat,
                       key: string, now: int)
    requires RingSpec.Canonical(hash, u) && RingSpec.Canonical(hash, s) && s.nodes <= u.nodes
    requires n in c.nodes && c.nodes[n].view == s.nodes && Owner(s, hash(key)) in c.nodes && Owner(s, hash(key)) != n
    requires j < |c.nodes[n].jobs| && key in c.nodes[n].jobs[j].todo
    requires var seconds := RemainingSeconds(c.nodes[n].table, key, now);
      Token(key) && Token(c.nodes[n].jobs[j].todo[key]) && seconds <= MAX_SECONDS
    ensures var pref: Prefs, node := k => PreferenceList(u, hash(k)), c.nodes[n];
      var job, seconds, c' := node.jobs[j], RemainingSeconds(node.table, key, now), SendPush(pref, c, n, j, key, now);
      var sent := Server.Pushes(s, hash, n, job.only, node.table, k => now, job.todo);
      if key in sent then
        && c'.pushes == c.pushes + [Pushed(n, sent[key].0, key, job.todo[key], seconds, true)]
        && Parse(sent[key].1) == PushRequest(key, job.todo[key], seconds)
      else c'.pushes == c.pushes
  {
    RingsDriveTheCluster(hash, u, s, c, n, key);
    hide RingSpec.Canonical, PreferenceList, Owner, OwnerAt, RemainingSeconds, Parse, PushCommand, PushRequest, Token;
    PushRoundTrip(key, c.nodes[n].jobs[j].todo[key], RemainingSeconds(c.nodes[n].table, key, now));
  }

  // The network as the transition system has it, for polls: a node that is up answers a line that reads as a
  // LOCALGET as it handles it, and a node that is down does not.
  ghost predicate AnswersPolls(net: Server.Network, c: State, now: int) {
    forall id, line :: Parse(line).LocalGet? ==>
      net(id, line) ==
        if id in c.nodes && c.nodes[id].up
        then Some(Handle(id, id, c.nodes[id].table, Parse(line), now, None, []).response)
        else None
  }

  /** The polls a node sends are the ones the read theorems are about. */
  lemma PollsAreAnswered(net: Server.Network, c: State, order: seq<string>, key: string, now: int)
    requires AnswersPolls(net, c, now) && Token(key)
    ensures Server.Polls(net, order, key) == PollAnswers(c, order, key, now)
  {
    PollLineMeans(key);
    hide Parse, Lookup;
    forall i | 0 <= i < |order| ensures Server.Polls(net, order, key)[i] == PollAnswer(c, order[i], key, now) {
      assert Parse("LOCALGET " + key) == LocalGet(key);
    }
  }
}
