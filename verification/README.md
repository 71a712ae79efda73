# Verified model of the cache cluster and of the log arithmetic

This project models, in Dafny, two parts of the repository and proves what they are for.

**The distributed cache** (Go). A consistent-hash ring with 150 positions per node decides which node
owns a key and which one replicates it. Every node keeps its own ring, driven by its own failure
detector; it stores keys in a lazily expiring table, forwards requests to the owner it believes in,
copies writes to a replica, falls back to polling its peers, and moves keys to their owners on MIGRATE
or when a peer recovers. The central idea is the *preference list* of a key: all nodes in clockwise
order from the key's position. A node that knows fewer members sees the same list with the missing
nodes deleted; owner, replica, failover and termination of forwarding all follow from that, and so
does the safety of rebalancing: a push always goes earlier in that list, so whenever a sender deletes
its copy an earlier node holds one.

In the transition system a migration's push is sent, arrives and is acknowledged, and leads to the
sender's delete in separate steps, between which anything may happen: other pushes of the same key,
changes of views, restarts, sweeps, client traffic.

**The log and uptime arithmetic** (Python). A request log is read backwards in chunks with an early
stop, logs and heartbeats are rotated, and downtime is computed from gaps between heartbeats, clipped
to days.

Code that works by changing state is modelled by classes and methods with loops, each proved against a
function of its inputs or of the old state; what the program promises is then proved about those
functions, for all inputs, all runs and all interleavings.

| module | content |
|---|---|
| `Fnv`, `Clash`, `Text`, `Sequences`, `Lines` | 32-bit FNV-1a and two node IDs that share a ring position; tokens and decimal numbers; deletion, deduplication and sorting of sequences; splitting into lines |
| `RingSpec`, `Ring`, `Preference`, `Nearest` | ring states as values, the ring as a class with an in-place buffer, the preference list, and that it is the order of nearness on the circle |
| `Membership`, `Router`, `Gossip` | heartbeat outcomes as values, the router and the failure detector as classes |
| `StoreSpec`, `Store` | timed tables as values, the store as a class |
| `Wire`, `NodeSpec`, `Server`, `Protocol` | the line protocol, what one node answers and changes, the node as a class, and what each line does, end to end |
| `Cluster`, `Requests`, `Safety`, `Reads` | the cluster as a transition system, requests served hop by hop, what every run keeps, what reads find |
| `Durability`, `Failover`, `Recovery`, `Races` | what primary and replica hold, what is read after a crash, and after the crashed node's return; replications that overtake each other |
| `Deletion`, `Resurrection` | when a deleted key stays deleted, and a run in which it does not |
| `Migration`, `Conservation`, `Placement` | what moves do to an expiry, why rebalancing loses no key, and where keys end up |
| `Logs`, `LogRotation`, `Heartbeats` | the backward reader, both rotations |
| `Availability`, `Uptime`, `Days` | the availability report, its properties, and what a day's report says second by second |

Where a property fails on some input, the model keeps the program's behaviour and a lemma says exactly
when the property holds: `RingSpec.InsertionsCommuteIff` and `RingSpec.RemoveUndoesAddIff` (clashing ring
positions, which `Clash.OrderCanMatter` shows to exist), `Deletion.DeletionIsFinalIff` (a push from an old
snapshot or a late replication brings a deleted key back, as in the run of `Resurrection.DeletedKeyComesBack`),
`Races.RacingReplicationsAgreeIff` (replications of one key that arrive out of order), `Membership.SelfStaysIff` (a node configured as its own peer), `Wire.DurationExactIff` (TTLs
beyond 64-bit nanoseconds), `Reads.ReadIsComplete` (the stored text `MISS`), `Migration.TtlDriftIsBounded`
(a push with less than a second left makes a key permanent), `Logs.SuffixIsFilterIff` (entries out of
time order).

Two comments disagree with the code, which is followed: the heartbeat loop's doc comment gives an
interval of 500 ms and says that the recovery callback is for dead peers, while it also fires for a
suspect peer (cache/cluster/gossip.go:13, 43-50, 109-114).

## Model

| member | source | states |
|---|---|---|
| `Fnv.Fnv1a` | cache/cluster/ring.go:13-20 | the loop computes the fold of the FNV-1a round over the string, in 32-bit arithmetic |
| `Fnv.StepIsPermutation` | cache/cluster/ring.go:15-18 | for each byte the round has a two-sided inverse on the 32-bit states |
| `Fnv.FoldIsPermutation` | cache/cluster/ring.go:13-20 | hashing a fixed string, from any start state, can be undone: it is a permutation of the states |
| `Fnv.StepInjectiveInByte` | cache/cluster/ring.go:16-17 | in each state different bytes lead to different states |
| `Fnv.OneByteApartNeverCollide` | cache/cluster/ring.go:13-20 | byte strings of equal length differing in exactly one byte have different hashes |
| `Text.LabelsDiffer` | cache/cluster/ring.go:46 | the label `id:i` determines the node ID and the index, even when IDs contain colons and digits |
| `Text.TrimmingIsExact` | api/app/heartbeat.py:33 | trimming takes away all whitespace at both ends and nothing else |
| `Text.SpaceSeparatesFields` | cache/node/server.go:109 | a whitespace character anywhere separates fields |
| `Text.AtoiReads` | cache/node/server.go:174 | exactly digits with at most one sign, of a value within 64 bits, are a number, and it is that value |
| `RingSpec.AddKeepsCanonical` | cache/cluster/ring.go:38-53 | adding a node keeps positions sorted, distinct, equal to the map's domain and exactly those of the members |
| `RingSpec.RemoveKeepsCanonical` | cache/cluster/ring.go:55-71 | so does removing one |
| `RingSpec.CanonicalUnique` | cache/cluster/ring.go:24-29 | canonical rings with equal member sets are equal in positions and map |
| `RingSpec.CanonicalSize` | cache/cluster/ring.go:9-53 | a canonical ring has 150 positions per member |
| `RingSpec.RunIsCanonical` | cache/cluster/ring.go:38-71 | after any sequence of additions and removals the ring is canonical for the surviving members, with 150 positions each |
| `RingSpec.HistoryDoesNotMatter` | cache/cluster/ring.go:38-71 | two histories with the same survivors end in the same ring |
| `RingSpec.InsertionsCommuteIff` | cache/cluster/ring.go:45-49 | two additions commute exactly when the nodes share no position |
| `RingSpec.RemoveUndoesAddIff` | cache/cluster/ring.go:61-70 | removal restores the ring before the addition exactly when the node's positions were distinct and free |
| `Clash.RealLabelsClash` | cache/cluster/ring.go:13-20 | the labels `ls:109` and `n5:44` have the same 32-bit hash |
| `Clash.OrderCanMatter` | cache/cluster/ring.go:45-49 | so, with the real hash, adding the nodes `ls` and `n5` in one order or the other makes different rings |
| `Ring.HashRing.constructor` | cache/cluster/ring.go:31-36 | a new ring is empty |
| `Ring.HashRing.AddNode` | cache/cluster/ring.go:38-53 | the object's new state is the specified addition, also for a member already present |
| `Ring.HashRing.RemoveNode` | cache/cluster/ring.go:55-71 | compacting the buffer in place keeps exactly the other nodes' positions, in order |
| `Ring.HashRing.Search` | cache/cluster/ring.go:82-84 | binary search finds the first position not below the hash, or the length |
| `Ring.HashRing.GetNode` | cache/cluster/ring.go:75-89 | the result is the head of the key's clockwise order, with wrap-around |
| `Ring.HashRing.GetNodes` | cache/cluster/ring.go:93-117 | the result is the key's preference list cut to n |
| `Preference.SmallerRingPrefersTheSame` | cache/cluster/ring.go:93-117 | a ring with fewer members has the same preference list with the missing nodes deleted |
| `Preference.PreferenceListHoldsMembers` | cache/cluster/ring.go:75-117 | the list holds each member exactly once and starts with the owner |
| `Preference.RemovingOwnerPromotesReplica` | cache/cluster/ring.go:91-117 | without its owner a key belongs to exactly the former replica |
| `Preference.RemovalMovesOnlyOwnKeys` | cache/cluster/ring_test.go:61-87 | removing a node changes a key's owner iff that node owned it |
| `Preference.AdditionMovesKeysOnlyToNewNode` | cache/cluster/ring_test.go:31-59 | adding a node leaves a key's owner unchanged or makes the new node the owner |
| `Preference.OwnerInView` | cache/cluster/router.go:39-41 | the owner by a node's own ring is the first node of its view in the key's full clockwise order |
| `Preference.OwnerRanksFirst` | cache/cluster/ring.go:73-89 | no node of a view precedes the owner in the clockwise order |
| `Nearest.PreferredIffNearer` | cache/cluster/ring.go:93-117 | a member precedes another in a key's list iff one of its 150 positions is nearer ahead of the key, around the circle, than all of the other's |
| `Nearest.OwnerIsNearest` | cache/cluster/ring.go:73-89 | the owner of a key is the member nearest ahead of it, with wrap-around |
| `Membership.StatusIsFunctionOfHistory` | cache/cluster/gossip.go:98-129 | after any sequence of heartbeat outcomes a peer is dead and gone from ring and address book iff its last three failed, suspect iff the last one or two did; addresses are the configured ones; the node itself stays |
| `Membership.LastThreeDecide` | cache/cluster/gossip.go:105-128 | a peer is dead, and absent from ring and address book, iff its last three outcomes are failures, and alive iff it has none or the last is a success |
| `Membership.OrderOfPeersDoesNotMatter` | cache/cluster/gossip.go:78-129 | runs giving every peer the same history end in the same state, ring included |
| `Membership.TickOrderDoesNotMatter` | cache/cluster/gossip.go:78-96 | the state after a round of pings does not depend on the order in which they finish |
| `Membership.SelfStaysIff` | cache/cluster/router.go:18-36 | a node stays in its own ring in every run exactly when it is not among its configured peers |
| `Gossip.Detector.constructor` | cache/cluster/gossip.go:53-63 | one record per known peer, presumed alive, with its address |
| `Gossip.Detector.Record` | cache/cluster/gossip.go:105-128 | an outcome updates that peer's miss count and status and no other record |
| `Gossip.Detector.PingPeer` | cache/cluster/gossip.go:98-129 | records, router and ring change as the specified heartbeat; in every state its history accounts for, the recovery callback fires iff the heartbeat succeeds after one or more trailing failures, suspect peers included |
| `Gossip.Detector.Tick` | cache/cluster/gossip.go:78-96 | a tick handles one outcome per peer, in some order, as a run of heartbeats |
| `Router.PeerRouter.constructor` | cache/cluster/router.go:18-26 | a new router has no peers and a ring of itself |
| `Router.PeerRouter.AddPeer` | cache/cluster/router.go:28-31 | address book and ring both gain the peer |
| `Router.PeerRouter.RemovePeer` | cache/cluster/router.go:33-36 | address book and ring both lose the peer |
| `Router.PeerRouter.OwnerOf` | cache/cluster/router.go:39-41 | the owner of the key by the ring |
| `Router.PeerRouter.Replicas` | cache/cluster/router.go:49-55 | the second node of the preference list, if there is one |
| `StoreSpec.SweepsAreInvisible` | cache/node/store.go:113-124 | under a monotone clock, sweeps at any moments of any run change no present or future answer of Get, TTL, All or AllWithTTL |
| `StoreSpec.ListedIffReadable` | cache/node/store.go:41-111 | All and AllWithTTL have the same keys: those Get would return, except at the very instant of expiry |
| `Store.KeyStore.Set` | cache/node/store.go:31-39 | the table gains the value, with an expiry only for a positive TTL |
| `Store.KeyStore.Get` | cache/node/store.go:41-51 | the live value or nothing; exactly one counter moves |
| `Store.KeyStore.Del` | cache/node/store.go:53-59 | the key is gone; the answer counts expired entries too |
| `Store.KeyStore.TTL` | cache/node/store.go:61-72 | whole seconds left, -1 without expiry, -2 when missing or expired |
| `Store.KeyStore.All` | cache/node/store.go:84-95 | exactly the unexpired pairs |
| `Store.KeyStore.AllWithTTL` | cache/node/store.go:98-111 | exactly the unexpired keys with their remaining seconds |
| `Store.KeyStore.Evict` | cache/node/store.go:116-122 | exactly the expired entries are removed |
| `Wire.DurationExactIff` | cache/node/server.go:174-178 | a TTL in seconds is kept exactly iff it is at most 9223372036; beyond that the product wraps |
| `Wire.DurationWraps` | cache/node/server.go:178 | in general the product is the 64-bit signed one |
| `Wire.RequestsCarryTokens` | cache/node/server.go:108-113 | every key and value a parsed request carries is a non-empty token without white space |
| `Protocol.KeyLinesMean` | cache/node/server.go:113-235 | GET, DEL, TTL, LOCALGET or LOCALDEL in any letter case and a key parse to exactly that request for that key |
| `Protocol.SetLinesMean` | cache/node/server.go:163-179 | SET in any letter case: key, value and third word in their places |
| `Protocol.LocalSetLinesMean` | cache/node/server.go:131-142 | LOCALSET in any letter case; a third word that is no positive number is ignored |
| `Protocol.PingLineMeans` | cache/node/server.go:126-127 | PING in any letter case |
| `Protocol.OtherLinesIff` | cache/node/server.go:108-331 | exactly which lines are blank, too short, unknown, MIGRATE or reporting |
| `Protocol.BadLinesAreRefused` | cache/node/server.go:110-331 | blank, too short and unknown lines are answered with an error and change nothing |
| `Protocol.ReadLinesTakeEffect` | cache/node/server.go:184-238 | a GET or TTL line changes nothing and starts nothing; GET at the owner answers the live value |
| `Protocol.DelLineTakesEffect` | cache/node/server.go:210-224 | a DEL line at the owner removes exactly that key, replicates that and says whether it was there; elsewhere it changes nothing |
| `Protocol.SetLineTakesEffect` | cache/node/server.go:163-182 | a SET line at the owner: the value is readable until exactly the given number of seconds after the write, or for ever, and is replicated with that TTL |
| `Protocol.TtlRefusedIff` | cache/node/server.go:173-178 | the third word is refused iff it is no decimal number or not positive |
| `Protocol.InternalRequestsAreDeliveries` | cache/node/server.go:126-159 | LOCALSET and LOCALDEL are answered OK and change the table as the transition system's deliveries do, LOCALGET gets the answer polls count on, PING starts with PONG |
| `Protocol.ReplicationLineTakesEffect` | cache/node/replication.go:20-27 | a printed replication, received, makes the value readable until its whole seconds are over, or removes the key; nothing else changes |
| `Protocol.PushLineTakesEffect` | cache/node/server.go:352-357 | the same for a printed push |
| `Protocol.PollLineIsAnswered` | cache/node/replication.go:46 | a poll line gets the live value or MISS and changes nothing |
| `Protocol.PollsAreAnswered` | cache/node/replication.go:45-50 | when nodes that are up answer lines as they handle them, the polls a node sends get the answers the read theorems are about |
| `Protocol.PushesAreSends` | cache/node/server.go:343-387 | what a node's migration loop sends, to whom and with which line, is what the transition system's send step puts on its way |
| `Protocol.SweptIsGone` | cache/node/store.go:113-122 | a sweep removes exactly the expired entries, so that DEL then answers MISS for them |
| `Protocol.RemainingIsRoundedDown` | cache/node/store.go:71 | TTL is the time left rounded down to whole seconds |
| `Text.AtoiOfItoa` | cache/node/server.go:354 | a printed TTL is read back as the same number |
| `Wire.PushRoundTrip` | cache/node/server.go:352-357 | a printed push parses back to the same key, value and TTL |
| `Wire.ReplicaRoundTrip` | cache/node/replication.go:20-27 | a printed replication parses back to the write it stands for, to the whole second |
| `Wire.ForwardedLineMeansTheSame` | cache/node/server.go:98-113 | a line forwarded verbatim is parsed identically by the receiver |
| `Server.CacheServer.constructor` | cache/node/server.go:59-78 | a node starts with an empty store, every configured peer in ring and address book, and a detector iff there are peers |
| `Server.ConfiguredRouter` | cache/node/server.go:60-63 | the configured ring is canonical whatever order the configuration is read in |
| `Server.CacheServer.ReadFromAnyPeer` | cache/node/replication.go:40-52 | own value, else the first peer answer that is neither an error nor MISS |
| `Server.CacheServer.Dispatch` | cache/node/server.go:108-238 | response, new table and started replication for every line but MIGRATE and the reporting commands, malformed ones included |
| `Server.CacheServer.ServeSet` | cache/node/server.go:163-182 | SET: forwarded, refused for a bad TTL, or stored and replicated |
| `Server.CacheServer.ServeGet` | cache/node/server.go:184-208 | GET: own value, the owner's answer, or what polling finds |
| `Server.CacheServer.ServeDel` | cache/node/server.go:210-224 | DEL: forwarded, or deleted and replicated |
| `Server.CacheServer.ServeTtl` | cache/node/server.go:226-238 | TTL: forwarded, or the printed remaining seconds |
| `Server.CacheServer.Replicate` | cache/node/replication.go:10-34 | which line goes to which replica, and when none is sent |
| `Server.CacheServer.PushKey` | cache/node/server.go:351-361 | the line sent for a key; the own copy is deleted iff the push is acknowledged |
| `Server.CacheServer.PushKeys` | cache/node/server.go:343-391 | both migrations, in any iteration order: exactly the keys owned elsewhere (or by the recovered node) are pushed, exactly the acknowledged ones deleted and counted |
| `Cluster.NextKeepsViews` | cache/cluster/router.go:18-36 | every step keeps every node's view a set of configured nodes that contains the node itself, the views a node takes over being of that kind |
| `Reads.DetectorViewsAreLegal` | cache/cluster/gossip.go:98-129 | and those are the views there are: after any sequence of heartbeat outcomes the members of a detector's ring contain the node itself and only configured nodes, so taking them over is a step of the cluster |
| `Requests.SetIsOneWrite` | cache/node/server.go:163-182 | a SET entering anywhere, served hop by hop under disagreeing views, is one write at the end of its route iff no hop loses it, and otherwise changes nothing; it is answered OK iff, besides, every reply comes back, so an error does not tell that the write did not happen |
| `Requests.DelIsOneWrite` | cache/node/server.go:210-224 | the same for DEL, whose OK or MISS says whether the final node had the key |
| `Requests.GetIsRead` | cache/node/server.go:184-208 | a GET changes no table, whatever is lost, and its hop-by-hop answer is the one the read theorems are about |
| `Requests.TtlIsRouted` | cache/node/server.go:226-238 | a TTL request changes nothing; unless something is lost it is answered by the end of its route: MISS iff there is no live copy, -1 without expiry, else the whole seconds left |
| `Requests.ServedWritesAreSteps` | cache/node/server.go:163-224 | what the nodes make of a SET or DEL is the client step of the transition system if it gets through, and nothing otherwise |
| `Reads.ForwardingNeverLoops` | cache/node/server.go:169-171 | with stale, disagreeing and changing views every hop goes strictly earlier in the clockwise order; no node is visited twice, and there are fewer hops than nodes |
| `Reads.RingsGiveGoodPrefs` | cache/cluster/ring.go:75-117 | canonical rings over a common universe compute owners and lists from one preference order per key |
| `Reads.RingsDriveTheCluster` | cache/node/replication.go:11-18 | a node's own canonical ring gives the owner and the replica the transition system's steps use |
| `Reads.ReadIsComplete` | cache/node/server.go:184-208 | with full views of reachable nodes GET anywhere answers MISS iff no node would answer a poll with another text or the answering node stores that very text; any other answer is some node's live value; all this whatever forwarded requests or replies are lost |
| `Reads.FirstCopyIsRead` | cache/node/replication.go:42-50 | which copy is read: the answering node's own, else that of the first polled node with a live value other than the text MISS |
| `Reads.MissMeansNoCopy` | cache/node/replication.go:40-52 | when nobody stores the text MISS under the key, GET anywhere answers MISS iff there is no live copy |
| `Reads.AgreedCopiesAreRead` | cache/node/server.go:184-208 | when all live copies have one value and every node that is up polls a holder, GET at any of them answers it, however views differ and whatever is down or lost |
| `Reads.AbsentIsMiss` | cache/node/replication.go:40-52 | a key without a live copy on any reachable node is a miss everywhere |
| `Safety.EveryRunIsSafe` | cache/node/server.go:125-391 | in every run, whatever interleaves, all stored, queued, travelling and snapshot pairs are tokens some client wrote |
| `Safety.ReachableLinesRoundTrip` | cache/node/replication.go:20-27 | in every reachable state every LOCALSET or LOCALDEL on its way or yet to be printed parses back to the same key, value and TTL |
| `Durability.RunHolds` | cache/node/server.go:163-224 | with stable full views and each write replicated before the next of its key, primary and replica hold the latest write of every key, sweeps at any time included |
| `Failover.SurvivesAnySingleCrash` | cache/node/replication.go:10-52 | after such a run and the crash of any node, GET at any survivor returns the last value set, or MISS after DEL, whichever survivors have noticed, however they poll and whatever forwards are lost |
| `Recovery.SurvivesCrashAndRebalancing` | cache/node/server.go:343-391 | and it still does after the crashed node has come back empty and any migrations, rebalancing pushes, view changes, restarts, sweeps and traffic of other keys have gone on, once the nodes that are up know each other; a value with a TTL until its expiry less a second for each push |
| `Recovery.PrimaryComesBack` | cache/node/server.go:196-207 | an instance, from the empty cluster: in the state after a SET, its replication, the primary's crash and its restart, GET anywhere answers the value |
| `Races.RacingReplicationsAgreeIff` | cache/node/server.go:181-220 | several replications of a key may get through in any order; replica and primary then agree iff the last one delivered was of the last write |
| `Deletion.DeletionIsFinalIff` | cache/node/server.go:343-361 | from a state where no node that is up has a key, it stays absent in every run in which no client sets it, crashes included, iff no push of it is on its way to a configured node, no snapshot holding it may still be pushed to a node before its own, and no replication of a SET of it has a replica to go to |
| `Deletion.QuietDeletionIsFinalIff` | cache/node/server.go:369-391 | without crashes, writes and replications of the key, the two conditions about pushes alone decide |
| `Resurrection.DeletedKeyComesBack` | cache/node/server.go:343-361 | a run from the empty cluster: a key is set, replicated, snapshotted by a MIGRATE at its replica, deleted everywhere, and pushed again without TTL, so that GET anywhere goes from MISS back to the value |
| `Migration.TtlDriftIsBounded` | cache/node/server.go:351-358 | n moves cost an expiry less than n seconds; it is kept iff a whole second was left at every move; no TTL stays no TTL |
| `Conservation.RebalancingConservesKeys` | cache/node/server.go:343-391 | with any number of migrations under disagreeing and changing views, pushes delayed, lost, unacknowledged or acknowledged, late deletes, restarts, sweeps and all traffic of other keys, every live copy has a value the key had, and one remains until the smallest expiry less a second for each push |
| `Conservation.PermanentKeysSurviveMigrations` | cache/node/server.go:343-391 | a key without TTL keeps a live copy that never expires, at any time and however the nodes' clocks differ |
| `Placement.MigrateEverywherePlacesKeys` | api/app/routers/metrics.py:341-350 | once every node has run MIGRATE, however long and in whatever order snapshots, pushes and deletes took, every listed key is on its owner alone with the agreed value, and a further MIGRATE moves nothing |
| `Placement.MigrateEverywhereKeepsKeys` | api/app/routers/metrics.py:341-350 | and each key that was live is listed by its owner then, always if it has no expiry, else until its smallest expiry less a second for each push |
| `Placement.PlacedKeysDieWithTheirOwner` | cache/node/server.go:358-360 | a placed key has one copy: after one more crash GET at a survivor answers its value if the crashed node was not the owner, and MISS if it was |
| `Lines.SplitConcat` | api/app/routers/metrics.py:60-62 | splitting a concatenation joins the pieces at the seam into one line |
| `Lines.SplitJoins` | api/app/routers/metrics.py:61 | the pieces of a split, joined by newlines, are the text |
| `Lines.LinesRoundTrip` | api/app/routers/metrics.py:119-120 | lines written out are read back unchanged |
| `Logs.ReadLogs` | api/app/routers/metrics.py:44-87 | for every chunk size and every mix of blank, malformed and straddling lines: exactly the records that the lines after the last one older than the cutoff decode to, in file order; nothing for a missing file |
| `Logs.SuffixEntriesAreRecords` | api/app/routers/metrics.py:63-82 | the entries after the last stale one are the decoded records of an increasing list of lines: those with a record that no older record follows |
| `Logs.FilteredEntriesAreRecords` | api/app/routers/metrics.py:66-73 | the entries within the cutoff are the decoded records of exactly the lines with such a record, in order |
| `Logs.ScanBackward` | api/app/routers/metrics.py:63-75 | scanning a block's lines from the end collects the entries up to the first one before the cutoff |
| `Logs.SuffixIsFilterIff` | api/app/routers/metrics.py:70-72 | the early stop equals a whole-file filter exactly when no entry within the cutoff precedes an older one |
| `LogRotation.RotateLogs` | api/app/routers/metrics.py:93-125 | the file afterwards, untouched when nothing is old, and the number of lines removed for their age |
| `LogRotation.SplitAndReadLinesAgree` | api/app/routers/metrics.py:61-104 | reading by splitting bytes and reading line by line see the same entries |
| `LogRotation.RotatedEntries` | api/app/routers/metrics.py:99-121 | the rotated file holds exactly the entries within the cutoff, in order |
| `LogRotation.RotationLineByLine` | api/app/routers/metrics.py:104-120 | the file is rewritten iff some line decodes to an old record; then exactly those lines and the blank ones go and all others stay in place, malformed ones included, each ending in a newline |
| `LogRotation.OrderedReadIsComplete` | api/app/routers/metrics.py:44-87 | given time-ordered entries the reader returns exactly what a forward filter would |
| `LogRotation.RotationIsInvisible` | api/app/routers/metrics.py:93-125 | readers with a cutoff no earlier than the rotation's see the same entries before and after; rotating again changes nothing |
| `Heartbeats.ReadHeartbeats` | api/app/heartbeat.py:26-40 | the parseable beats within the cutoff, in file order; a timestamp without offset raises |
| `Heartbeats.RotateHeartbeats` | api/app/heartbeat.py:43-64 | the file afterwards and the number of dropped lines, malformed ones included; a timestamp without offset raises and leaves the file alone |
| `Heartbeats.BeatsLineByLine` | api/app/heartbeat.py:31-37 | a read raises iff some line has a time without offset; otherwise it gives the times of exactly the lines that parse to one within the cutoff, in order |
| `Heartbeats.RotationLineByLine` | api/app/heartbeat.py:51-63 | a rotation that does not raise keeps exactly those lines, in order and unchanged |
| `Heartbeats.RotationIsInvisible` | api/app/heartbeat.py:26-64 | beats in any order: later cutoffs read the same beats, or raise alike, and rotating again removes nothing |
| `Availability.FindGaps` | api/app/availability.py:48-54 | the stretches over the threshold between consecutive beats, the last one paired with now |
| `Availability.ClipGaps` | api/app/availability.py:77-87 | the outages of a window and their total duration |
| `Availability.CountErrors` | api/app/availability.py:61 | the number of responses with status 500 or above |
| `Availability.ReportDay` | api/app/availability.py:59-95 | one day's window, outages, downtime and percentage, or no data |
| `Availability.ComputeAvailability` | api/app/availability.py:38-95 | one report per day, oldest first, as a function of the sorted beats |
| `Days.ReportCountsSeconds` | api/app/availability.py:63-87 | a day is measured iff heartbeats cover one of its seconds; its coverage is the number of seconds covered and its downtime the number of those between beats more than the threshold apart |
| `Days.UptimeIsTheSmaller` | api/app/availability.py:88-90 | the uptime is the greatest percentage that exceeds neither the share of covered seconds without downtime nor, if there were requests, the share of those answered below 500 |
| `Days.ReportsAreByDay` | api/app/availability.py:57-61 | each report is about its own day, oldest first and today last, with that day's numbers of requests and of server errors |
| `Days.GapsAreStretches` | api/app/availability.py:48-54 | the gaps are exactly the stretches over the threshold from a beat to the next one or now, in order |
| `Days.OutagesAreCutGaps` | api/app/availability.py:78-86 | the outages are the gaps sharing a second with the window, in order, each with its start, end, duration and whether it goes on |
| `Days.ReportedOutages` | api/app/availability.py:77-86 | so a day's outages are its stretches between beats cut to the day, the first beat and now |
| `Uptime.DailyDowntimeTilesTheGaps` | api/app/availability.py:48-87 | the days' downtimes add up to the length of the over-threshold gaps inside the reporting window |
| `Uptime.MeasuredDayIsBounded` | api/app/availability.py:63-90 | on each measured day 0 <= downtime <= covered time, so uptime lies in [0, 100] |
| `Uptime.MoreBeatsNeverHurt` | api/app/availability.py:45-90 | a further beat between the first one and now never raises a day's downtime nor lowers its uptime, and leaves its coverage alone |
| `Uptime.OrderOfBeatsDoesNotMatter` | api/app/availability.py:45 | permuting the beats changes no report |

## Left out

- The hash: an arbitrary function in all ring and cluster proofs; `Fnv` has the concrete one, on strings of one character per byte.
- Distinct ring positions of all nodes are a hypothesis of the ring, membership and placement results; the lemmas ending in `Iff` say what happens without it.
- `RemoveUndoesAddIff`: for a non-empty node ID; the empty string is also what a lookup of a missing position gives.
- `sort.Slice` and `sorted` are modelled by their meaning, a sorted permutation, not by an algorithm.
- TCP, deadlines, goroutine scheduling and data races: sending a line, its arrival and its reply either happen or not; whether a forwarded request arrives and is answered is a parameter, and so are map iteration orders. A client's request is served to its end before anything else happens; `ForwardingNeverLoops` covers views that change on the way.
- Error texts after `ERR forward to <node>`; `strings.ToUpper` beyond ASCII; the rounding of `Duration.Seconds()` in floating point, taken as exact integer division.
- Output of INFO, CLUSTER, KEYS and KEYSTTL, the command log and the request counters; MIGRATE is modelled by `PushKeys`, outside `Dispatch`.
- `RunHolds`: replications get through, each key has at most one outstanding (the program gives them no order), TTLs are whole seconds, and no view changes or migrations happen before the crash, because a migration deletes the sender's copy, the replica's included.
- `SurvivesAnySingleCrash`: as `RunHolds`, and the key must not have expired when it is read; after expiry the replica's copy may live on for the time its delivery took.
- `SurvivesCrashAndRebalancing`: as `RunHolds` up to the crash; no second crash and no write of the key after it.
- `RebalancingConservesKeys`: without writes of the key and without crashes, which destroy copies; clocks agree unless the key has no expiry; no push of the key is under way at the start.
- `MigrateEverywherePlacesKeys`: needs agreeing views, acknowledged pushes and equal copies per key; without agreement a push may land on a node that does not see itself as owner.
- A replication's choice of replica and its delivery are one step of the transition system.
- `SplitAndReadLinesAgree`: a lone carriage return, which text mode also takes for a line end, is not part of the model.
- `ReportDay`: status labels, rounding to one decimal and the error ranking are not part of the model; times are whole seconds.
- `ComputeAvailability`: the summary block is not part of the model.
- JSON and timestamp parsing are parameters; `strip` is one function for bytes and text; I/O errors other than a missing file and the availability cache are not part of the model, nor is the unused `_overlap_s`.
- The web front end, the remaining API routers, deployment scripts and process statistics.
