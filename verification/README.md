# A verified model of geecache, geerpc and the myzinx frame codec

This project models four parts of the repository in Dafny and proves what they are for.

**The distributed cache (`geecache`).** The LRU is a class over a doubly linked list with a sentinel
and a map, proved to represent one duplicate-free sequence of entries in recency order
(`LruCache`, `LruSpec`). On top of it stand the read-through group of one node (`ReadThrough`), the
consistent-hash ring (`Ring`), a node's view of its peers (`Peers`), duplicate suppression as a step
machine and as an object (`Singleflight`, `SingleflightObject`), and the whole cluster: any number of
nodes, each with its own ring, cache and flight group, Gets and peer requests interleaving freely, peers
and getters failing at will (`Cluster`, `ClusterReads`, `ClusterLoading`, `ClusterProgress`).

**The RPC call protocol (`geerpc`).** The client's senders, receive loop, `Close` and removals
interleave under the locks `sending` and `mu` (`RpcClient`, and the regions under `mu` as methods of an
object in `RpcClientObject`). The server's read loop starts a handler and a worker per request, which
meet on unbuffered channels or are parted by a timer (`RpcServer`). The two are joined by two FIFO
streams of header and body items that may be cut at any time (`RpcSystem`), with runs that mark the
limits of what it promises (`RpcRuns`) and runs in which any number of calls complete in any order
(`RpcBatch`). `RpcClientHistory` says what must have happened before a call shows an error and before
the receive loop ends, and `RpcClientProgress` and `RpcServerProgress` that either side comes to rest.

**Registry and discovery.** The registry with its lazy, destructive expiry (`Registry`), the
comma-joined form of its answer (`ServerList`, `Ordered`), the client's list with random and round-robin
choice (`Discovery`), its timed snapshot (`RegistryDiscovery`), and registry and client on one clock
(`Freshness`).

**The frame codec of `myzinx`** (`Frame`).

A machine here is a `State`, an `Action` type whose constructors are the atomic steps of the code, a
predicate `Enabled` and a function `Do`. A theorem about every run is about every sequence of enabled
steps from the initial state.

A *shared ring* is the deployment of geecache/main/main.go:56-80: all running nodes called `Set` with the
same peers in some order, every running node is one of them, and no two peers' virtual nodes collide. A
peer may be down; requests to it fail and their callers fall back. The progress and single-loading
theorems need a shared ring; agreement with the source does not.

## Where the code does not do what one might expect

- A method that fails with an empty error text passes for success: `receive` tests `h.Error != ""`.
  `RpcRuns.EmptyErrorTextPassesForSuccess` is a run in which it does, and `RpcRuns.SuccessIffNoErrorText`
  says when a call can complete without an error: exactly when the text is empty or there is no error.
- A request for an unregistered name leaves its body in the stream, where the read loop takes it for the
  next header (`geerpc/server.go:139-142`). `RpcRuns.UnknownNameMisaligns` is a run from the initial state
  that shows it, and `RpcRuns.AlignedIffNamesKnown` says that the streams stay aligned in all runs exactly
  when every name callers use is registered.
- `terminateCalls` signals every pending call but leaves it in the table. Exactly-once completion still
  holds because the receive loop, the only other party that would signal it, has ended.
- Two nodes agree on the owner of every key if and only if no two distinct peers' labels share a hash.
  Two names share a label whatever the hash function exactly if one is the other with digits in front,
  few enough for the number of virtual nodes (`Ring.ShareLabelIff`).
- Prefix inclusion of a smaller LRU in a larger one holds for runs of Adds and for runs of read-through
  Gets. A bare Get of the LRU ends it if it hits only in the larger cache and the smaller one is not empty
  (`LruSpec.TouchKeepsInclusionIff`), and for any two different budgets there are Adds and a Get that do
  so (`LruSpec.BareGetsKeepInclusionIff`).
- A frame with more data than the receiver's limit does not come back, also where the 32-bit length
  field wraps to a small value and the receiver accepts a shorter message (`Frame.RoundTripIffFits`).
- An address with a comma, or with white space at an end, does not survive the registry's wire form
  (`ServerList.RoundTripIffClean`).

## Model

| member | source | states |
|---|---|---|
| LruCache.List.PushFront | geecache/lru/lru.go:69-70 | The circular list gains one fresh element at the front; all other elements keep their order and contents. |
| LruCache.List.Remove | geecache/lru/lru.go:49 | Unlinking takes out exactly the given element. |
| LruCache.List.MoveToFront | geecache/lru/lru.go:38 | Relinking puts the given element first and keeps the order of the others. |
| LruCache.Cache.Get | geecache/lru/lru.go:36-43 | Returns the value in the recency sequence and makes its entry the most recent; list, map and byte count keep representing one sequence without duplicate keys. |
| LruCache.Cache.RemoveOldest | geecache/lru/lru.go:46-58 | Drops the last entry of the sequence and reports exactly that entry; does nothing on an empty cache. |
| LruCache.Cache.Put | geecache/lru/lru.go:61-72 | Before eviction the key is the most recent one with the new value, whether it was inserted or overwritten, and nbytes is the sum of all key and value lengths. |
| LruCache.Cache.Trim | geecache/lru/lru.go:75-77 | The eviction loop ends, leaves the longest prefix that fits, and reports what it drops oldest first. |
| LruCache.Cache.Add | geecache/lru/lru.go:61-78 | The new sequence is the longest fitting prefix of the updated one, and the callback has been given exactly the rest, oldest first. |
| LruCache.Cache.Len | geecache/lru/lru.go:80-82 | The number of entries. |
| LruSpec.Evict | geecache/lru/lru.go:75-77 | Dropping oldest entries while the budget is exceeded yields the longest prefix that fits. |
| LruSpec.LongestFitUnique | geecache/lru/lru.go:75-77 | There is only one longest fitting prefix, so the eviction rule determines the cache. |
| LruSpec.OperationsKeepShape | geecache/lru/lru.go:36-78 | Get and Add keep keys distinct and the total within the budget. |
| LruSpec.AddFinds | geecache/lru/lru.go:61-78 | After an Add its key is found with its value unless that alone exceeds the budget; every other key is found as before or not at all. |
| LruSpec.TouchFinds | geecache/lru/lru.go:36-43 | A Get changes what no key holds. |
| LruSpec.RunsKeepInclusion | geecache/lru/lru.go:61-78 | Two caches fed the same Adds, values growing or shrinking, keep the smaller one's entries a prefix of the larger one's. |
| LruSpec.InclusionIffBudgetAtMost | geecache/lru/lru.go:61-78 | Inclusion along all runs of Adds holds if and only if the first budget is at most the second, 0 meaning unlimited. |
| LruSpec.TouchKeepsInclusionIff | geecache/lru/lru.go:36-43 | After a Get inclusion still holds if and only if the smaller cache is empty or hits too, or neither hits. |
| LruSpec.BareGetsKeepInclusionIff | geecache/lru/lru.go:36-78 | Inclusion after every run of Adds and any Get holds if and only if the two budgets are the same. |
| ReadThrough.MainCache.Add | geecache/cache.go:14-21 | Creates the LRU on first use and adds to it. |
| ReadThrough.MainCache.Get | geecache/cache.go:23-33 | Misses before the first use; otherwise looks up and refreshes. |
| ReadThrough.Group.Get | geecache/geecatche.go:65-75 | An empty key is an error that changes nothing; a hit refreshes; a miss loads and stores; and over entries that come from the getter the answer is the getter's. |
| ReadThrough.Group.GetLocally | geecache/geecatche.go:111-124 | Returns what the getter returns, and stores it exactly when there is no error. |
| ReadThrough.CacheIsFittingHistory | geecache/geecatche.go:65-124 | After any run of Gets the cache is the longest fitting prefix of all keys ever loaded, most recently accessed first. |
| ReadThrough.EveryGetAnswersAsGetter | geecache/geecatche.go:65-120 | After any run of Gets, whatever was evicted, a Get answers exactly what the getter would, and an empty key fails. |
| ReadThrough.ReadThroughInclusion | geecache/geecatche.go:65-124 | A smaller read-through cache always holds a prefix of a larger one's entries. |
| ReadThrough.HitIffWorkingSetFits | geecache/geecatche.go:65-124 | A Get hits if and only if the key was loaded before and, with everything successfully accessed since its last access, it fits the budget in bytes. |
| Ring.LabelInjective | geecache/consistenthash/consistenthash.go:34 | Virtual-node labels determine both number and name, for names that do not start with a digit. |
| Ring.ShareLabelIff | geecache/consistenthash/consistenthash.go:33-34 | Two nodes share one of their first n labels if and only if one's name is the other's with digits in front that, with a 1 before them, make a number below n. |
| Ring.SomeLabelSharedIff | geecache/consistenthash/consistenthash.go:33-34 | For enough virtual nodes two names share a label if and only if one is the other with digits in front. |
| Ring.SharedLabelCollides | geecache/consistenthash/consistenthash.go:31-40 | Nodes that share a label collide under every hash function. |
| Ring.Map.Add | geecache/consistenthash/consistenthash.go:31-40 | The loops and the final sort build the ring of the specification from the old one. |
| Ring.Map.Get | geecache/consistenthash/consistenthash.go:43-56 | Binary search with wrap-around yields the ring's answer, "" on an empty ring. |
| Ring.Map.Search | geecache/consistenthash/consistenthash.go:50-52 | The binary search finds the first point at or after the hash. |
| Ring.AddCallsConsistent | geecache/consistenthash/consistenthash.go:31-40 | After any sequence of Adds the points are sorted and are exactly the keys of the owner map. |
| Ring.AddNamesOwner | geecache/consistenthash/consistenthash.go:31-40 | Which points an Add creates and who owns a point afterwards, collisions included. |
| Ring.GetIsSuccessor | geecache/consistenthash/consistenthash.go:43-56 | Lookup returns the owner of the least point at or after the key's hash, or of the least point of all. |
| Ring.MinimalDisruption | geecache/consistenthash/consistenthash.go:31-56 | Adding nodes moves a key only if an added point lies on the closed arc from its hash to its old successor, and then it moves to an added node. |
| Ring.AgreementIffNoCrossCollision | geecache/consistenthash/consistenthash.go:31-56 | Lookups are independent of order, repetition and batching of the Adds if and only if no two distinct nodes share a point. |
| Peers.HttpPool.Set | geecache/http.go:109-120 | Replaces the ring and the clients by those of exactly the given peers. |
| Peers.HttpPool.PickPeer | geecache/http.go:123-131 | Returns the client of the ring's owner, and none if that is the node itself. |
| Peers.PickedHasGetter | geecache/http.go:123-131 | A picked peer is one of those given to Set, is not the node itself, and always has a client. |
| Peers.SamePeersSameOwner | geecache/http.go:109-131 | Nodes given the same peers in any order name the same owner for every key. |
| Singleflight.InvInEveryRun | geecache/singleflight/singleflight.go:19-43 | In every interleaving, calls, map entries and goroutines stay in step. |
| Singleflight.SafeInEveryRun | geecache/singleflight/singleflight.go:19-43 | A key is in the map if and only if exactly one leader is between registration and delete; fn never overlaps with itself for a key; the delete removes the leader's own call; results are read only once set and signalled; without leaders the map is empty. |
| Singleflight.FnReturnsOnce | geecache/singleflight/singleflight.go:35-37 | fn returns at most once per call. |
| Singleflight.ReturnedValueOfOwnCall | geecache/singleflight/singleflight.go:19-43 | What Do returns is what fn returned in the very call the goroutine led or joined. |
| Singleflight.SomeoneCanStep | geecache/singleflight/singleflight.go:19-43 | A goroutine inside Do is in fn, can step, or waits for a leader that is in fn or can step. |
| SingleflightObject.Group.Enter | geecache/singleflight/singleflight.go:20-33 | The first locked region joins the registered call or registers a new one, as the machine's step does. |
| SingleflightObject.Group.Delete | geecache/singleflight/singleflight.go:39-42 | The second locked region removes the caller's own entry and returns a result that is set. |
| SingleflightObject.Group.Assign | geecache/singleflight/singleflight.go:36 | Storing fn's results is the machine's step. |
| SingleflightObject.Group.Signal | geecache/singleflight/singleflight.go:37 | wg.Done is the machine's step. |
| SingleflightObject.Group.Wake | geecache/singleflight/singleflight.go:27-28 | A goroutine that joined reads a result that is set, from the call it joined. |
| Cluster.InvInEveryRun | geecache/geecatche.go:65-124 | Whatever rings, failures and interleavings, every node's flight group, cache and running Gets fit together. |
| ClusterReads.GetsAreAskedFor | geecache/geecatche.go:98-109 | Every Get was asked for: by a client on this node for this key, or by a Get of the same key that picked this node. |
| ClusterReads.ArrivalsAreServed | geecache/geecatche.go:65-75 | Every client Get is under way on its node for its key from its arrival on. |
| Cluster.ReadsAgreeWithSource | geecache/geecatche.go:65-124 | Every successful Get on any node returns the source's value, by hit, joined flight, peer or fallback, and every cached entry is the source's. |
| ClusterReads.FailsOnlyWithLocalGetter | geecache/geecatche.go:77-96 | In every run a Get of a key fails only after a getter call of its own node failed for that key; no failure of a peer or of a request makes it fail. |
| ClusterReads.EveryGetAnswersAsSource | geecache/geecatche.go:65-120 | While no getter call fails every finished Get of a key has the source's value, whatever peers and requests do; the empty key fails. |
| ClusterReads.HitEndsGet | geecache/geecatche.go:65-74 | A Get whose key is cached ends in its first step with the source's value, and any other Get of a key goes on to load. |
| ClusterReads.LoadedIsStored | geecache/geecatche.go:111-124 | Whatever the local getter returns is stored before the Get goes on. |
| ClusterReads.CacheIsOwnHistory | geecache/geecatche.go:65-124 | In every run each node's cache is the longest prefix within its budget of what that node stored, most recently stored or hit first. |
| ClusterReads.PeerFailedIffRequestFailed | geecache/geecatche.go:83-87 | A peer request has failed exactly if a request or the Get it started did. |
| Cluster.OneGetterPerNode | geecache/geecatche.go:77-96 | A node runs at most one getter call per key. |
| ClusterLoading.SharedRingIff | geecache/http.go:109-120 | Nodes that have all called Set with the same peers in some order share a ring if and only if there are any peers, none has the empty name, every running node is one of them, and no two collide. |
| ClusterLoading.AtMostOneHop | geecache/geecatche.go:77-96 | With a shared ring a forwarded Get arrives at the owner and is never forwarded again. |
| ClusterLoading.SingleLoadingInEveryRun | geecache/geecatche.go:77-124 | While no peer request has failed, at most one getter call per key runs in the cluster, on the owner, and no key is cached on two nodes. |
| ClusterProgress.NoWaitCycle | geecache/singleflight/singleflight.go:25-29 | Waits across all nodes' flights and peer requests form no cycle, and no chain of waits has more than four Gets. |
| ClusterProgress.NeverStuck | geecache/geecatche.go:77-109 | In every reachable state with an unfinished Get some step other than a new client Get is enabled. |
| ClusterProgress.StepLowersMeasure | geecache/geecatche.go:65-124 | Every step but a client's arrival lowers one measure; an arrival adds at most 21. |
| ClusterProgress.EveryGetFinishes | geecache/geecatche.go:65-124 | n client Gets cause at most 21 n steps, and when no step is left every Get has finished. |
| RpcClient.InvInEveryRun | geerpc/client.go:64-130 | In every interleaving the right to signal a call is held by one party only, and the table agrees with the registrations. |
| RpcClient.SignalledAtMostOnce | geerpc/client.go:26-28 | No call is signalled twice, and whoever signals finds the call not yet signalled. |
| RpcClient.SignalledExactlyOnce | geerpc/client.go:64-130 | Once send has returned and the receive loop has ended, a call has been signalled exactly once, unless an explicit removal took it out first. |
| RpcClient.SignalledIsDecided | geerpc/client.go:88-130 | A signalled call has a reply or an error. |
| RpcClientHistory.LoopEndsIffReadFailed | geerpc/client.go:102-130 | The receive loop goes on after every response, whoever waits for it, and ends if and only if a header or body could not be read. |
| RpcClientHistory.ClosingIffClosed | geerpc/client.go:45-53 | The client is closing exactly if someone called Close. |
| RpcClientHistory.RefusedAfterClose | geerpc/client.go:64-71 | After a Close no call gets a number; whoever registers is refused with the shutdown error. |
| RpcClientHistory.MuExcludes | geerpc/client.go:88-100 | While terminateCalls notifies nobody registers, takes back, removes or closes; at any other time a caller may close or remove. |
| RpcClientHistory.ErrorHasCause | geerpc/client.go:88-126 | Every error has its cause in the run: shutdown a refused registration, write error a failed write, server error a response with the call's number and that text, body error an unreadable body, connection error an ended loop. |
| RpcClientHistory.ReplyWasRead | geerpc/client.go:120-125 | Every reply was read with a response that had the call's number and no error text. |
| RpcClientHistory.FailedWriteIsTakenBack | geerpc/client.go:216-224 | When send returns after a failed write, its call is out of the table. |
| RpcClientHistory.RemovedForGood | geerpc/client.go:78-85 | A call removed from outside is never signalled from then on, and its number never comes back. |
| RpcClientObject.Client.NewCall | geerpc/client.go:230-241 | A new call starts unregistered, undecided and unsignalled. |
| RpcClientObject.Client.RegisterCall | geerpc/client.go:64-75 | The object takes the protocol's step: refused when closing or shut down, otherwise pending under the next number. |
| RpcClientObject.Client.RemoveCall | geerpc/client.go:78-85 | Returns the pending call, if any, and removes its entry only. |
| RpcClientObject.Client.TakeBack | geerpc/client.go:216-224 | After a failed write the call gets the error and a signal exactly if it is still pending. |
| RpcClientObject.Client.RemoveReceived | geerpc/client.go:110 | The receive loop takes out the call the response is for. |
| RpcClientObject.Client.RemoveByUser | geerpc/client.go:255 | Takes exactly the entry of that number out of the table and returns its call. |
| RpcClientObject.Client.Close | geerpc/client.go:45-53 | Sets closing; a second Close reports it. |
| RpcClientObject.Client.TerminateCalls | geerpc/client.go:88-100 | Shuts down, gives every pending call the error and one signal whatever the order, touches no other call, and leaves the table as it is. |
| RpcServer.AtMostOneResponse | geerpc/server.go:158-203 | No request is answered twice, for every race of timeout and completion. |
| RpcServer.OneResponseBeforeClose | geerpc/server.go:74-92 | When the codec is closed every request whose header was read has had exactly one response and no write is under way. |
| RpcServer.NothingSentAfterClose | geerpc/server.go:74-92 | Once the codec is closed no response is begun or under way, however the run goes on. |
| RpcServer.TimedOutWorkerNeverSends | geerpc/server.go:173-202 | Once the timer arm is taken the worker stays before its send on called for ever. |
| RpcServer.LoopEndsIffHeaderFailed | geerpc/server.go:74-88 | The read loop goes on after every request, refused ones included, and ends if and only if a header could not be read. |
| RpcServerProgress.DrainingNeverStuck | geerpc/server.go:90-91 | While the connection drains some step is possible, and with a timeout one that is not the return of a method. |
| RpcServerProgress.DrainingEnds | geerpc/server.go:90-91 | Draining takes at most seven steps a request and two more in any order, and only a closed connection has no step left, returns of methods aside if there is a timeout. |
| RpcSystem.InvInEveryRun | geerpc/client.go:102-130 | Client, server and both streams stay in step in every interleaving, with the connection cut at any time. |
| RpcSystem.FailuresAnytime | geerpc/codec/god.go:36-58 | The runs leave no failure out: in every reachable state either stream may be cut anywhere, and every write, header or body due may fail. |
| RpcSystem.AlignedInEveryRun | geerpc/codec/god.go:41-58 | Whoever reads a header finds a header, and whoever reads a body finds a body. |
| RpcSystem.NothingAfterCut | geerpc/codec/god.go:41-58 | Once a stream is cut nothing more gets into it: what can still be read is a stretch of what was left. |
| RpcSystem.RepliesMatchCalls | geerpc/client.go:102-130 | A call completed without an error holds the result of its own method on its own arguments, whatever the order of responses, and that method returned no error or one with an empty text. |
| RpcSystem.ErrorsMatchCalls | geerpc/server.go:176-194 | A call completed with an error text from the server holds its own method's error, the timeout's, if there is one, or that of a request that could not be read. |
| RpcRuns.UnknownNameMisaligns | geerpc/server.go:138-142 | For every unregistered name there is a run from the initial state in which a request's body is next in the stream while the read loop expects a header. |
| RpcRuns.AlignedIffNamesKnown | geerpc/server.go:133-156 | Both streams stay aligned in every run over a set of names if and only if all of them are registered. |
| RpcRuns.SuccessIffNoErrorText | geerpc/client.go:116-126 | A call can complete without an error if and only if its method returns none, or one whose text is empty. |
| RpcRuns.EmptyErrorTextPassesForSuccess | geerpc/server.go:176-178 | A method that fails with an empty text completes its call with its reply, no error, and one signal. |
| RpcBatch.CompleteInOrder | geerpc/client.go:199-248 | Any list of calls of registered methods can be under way at once and complete in any order on one connection, each with one signal and its own method's reply or error text, the loop still reading. |
| RpcClientProgress.NeverStuck | geerpc/client.go:88-130 | Until every send has returned and the receive loop has ended some step is possible, whoever holds the two locks. |
| RpcClientProgress.ClientComesToRest | geerpc/client.go:199-227 | Once nothing arrives any more, at most eight steps a call, one a pending call and seven more remain, and when none is left every call has been signalled exactly once or was removed. |
| Ordered.SortStringsSorts | geerpc/registry/registry.go:70 | Sorting orders lexicographically and keeps the multiset. |
| Ordered.PrecedesIff | geerpc/registry/registry.go:70 | The order is that of the first position in which two addresses differ, a prefix before what it begins. |
| Ordered.SortedKeysUnique | geerpc/registry/registry.go:61-70 | Sorting the addresses gives the same list whatever order the map was visited in. |
| Registry.GeeRegistry.PutServer | geerpc/registry/registry.go:43-55 | Exactly the entry of this address gets the new time, created if missing. |
| Registry.GeeRegistry.AliveServers | geerpc/registry/registry.go:58-72 | Removes exactly the expired entries and returns the remaining addresses in order, for any visiting order and one clock reading per entry. |
| Registry.GeeRegistry.Post | geerpc/registry/registry.go:78-84 | A heartbeat without address is refused and changes nothing. |
| Registry.GeeRegistry.Get | geerpc/registry/registry.go:76-77 | The answer is the sorted list of servers alive, joined with commas. |
| Registry.ListingEqualsHistory | geerpc/registry/registry.go:43-72 | After any history on a clock that never goes back, a listing keeps and shows exactly the servers whose latest heartbeat is recent enough, whatever earlier listings deleted. |
| Registry.HeartbeatKeepsListed | geerpc/registry/registry.go:101-115 | A server whose ticker sends one heartbeat a period is in every listing from the first on, if period and delay together are below the timeout, or there is none. |
| Registry.AlwaysListedIff | geerpc/registry/registry.go:101-115 | In all histories a server with this ticker is in every listing after its first heartbeat if and only if period and delay together are below the timeout, or there is none. |
| Registry.DefaultHeartbeatListedIff | geerpc/registry/registry.go:101-104 | With the default period and timeout that holds if and only if heartbeats take less than a minute. |
| ServerList.SplitInvertsJoin | geerpc/xclient/discovery_gee.go:53 | Splitting is the inverse of joining that leaves no comma in a part. |
| ServerList.ParsedAreClean | geerpc/xclient/discovery_gee.go:53-59 | Whatever the header, the client keeps only non-empty, trimmed, comma-free addresses. |
| ServerList.TrimSpaceCuts | geerpc/xclient/discovery_gee.go:56-57 | Trimming cuts off white space at both ends only, and all of it. |
| ServerList.PaddedIsKept | geerpc/xclient/discovery_gee.go:53-59 | An address between white space is kept without it. |
| ServerList.RoundTripIffClean | geerpc/registry/registry.go:74-79 | Join, split and trim give the list back, the empty one included, if and only if every address is non-empty, comma-free and trimmed. |
| Discovery.MultiServersDiscovery.Get | geerpc/xclient/discovery.go:60-77 | No servers and unknown modes are errors; otherwise a server of the list, and only round robin moves the index. |
| Discovery.MultiServersDiscovery.Update | geerpc/xclient/discovery.go:52-57 | Replaces the list and keeps the index, which stays valid for a list of any length. |
| Discovery.AnsweredExactly | geerpc/xclient/discovery.go:69-72 | How often an address has been answered by the first k round-robin Gets is the sum of the turns of the positions that hold it. |
| Discovery.AnsweredShare | geerpc/xclient/discovery.go:69-72 | In a list without duplicates how often each server has been answered, exactly. |
| Discovery.RoundRobinIsFair | geerpc/xclient/discovery.go:60-77 | Of any m round-robin Gets on an unchanged list of n different servers each server answers m/n, rounded down or up. |
| Discovery.AnswersFromLatestList | geerpc/xclient/discovery.go:52-77 | Whatever Gets and Updates came before, a Get answers a server of the list set last, and finds none exactly if that is empty. |
| Discovery.RandomReachesEveryServer | geerpc/xclient/discovery.go:67-68 | The random mode can answer every server of the list and nothing else, and does not move the index. |
| Discovery.PickFailsIff | geerpc/xclient/discovery.go:63-76 | The two errors occur exactly for an empty list and for a mode that is neither of the two. |
| RegistryDiscovery.GeeRegistryDiscovery.constructor | geerpc/xclient/discovery_gee.go:19-30 | Timeout 0 becomes ten seconds; the list starts empty. |
| RegistryDiscovery.GeeRegistryDiscovery.Refresh | geerpc/xclient/discovery_gee.go:40-62 | A current snapshot is kept without a fetch, a failed fetch changes nothing, and a response replaces list and time by what its header says. |
| RegistryDiscovery.GeeRegistryDiscovery.Get | geerpc/xclient/discovery_gee.go:64-69 | Chooses from the refreshed snapshot, or fails with the refresh. |
| RegistryDiscovery.YoungSnapshotAnswers | geerpc/xclient/discovery_gee.go:44-46 | A Get on a snapshot younger than the timeout answers from it, whatever a fetch would have brought. |
| RegistryDiscovery.OldSnapshotIsReplaced | geerpc/xclient/discovery_gee.go:47-69 | A Get on an older snapshot answers from exactly the list the registry sent, or fails without a response and keeps the snapshot. |
| RegistryDiscovery.GeeRegistryDiscovery.Update | geerpc/xclient/discovery_gee.go:32-38 | Sets list and time. |
| Freshness.InvInEveryRun | geerpc/xclient/discovery_gee.go:40-69 | In every interleaving of heartbeats, listings and refreshes each snapshot address was heard of within the registry timeout plus one fetch of the snapshot's time. |
| Freshness.StalenessIsBounded | geerpc/xclient/discovery_gee.go:40-69 | An address handed out had a heartbeat less than registry timeout plus refresh timeout plus the fetch time before. |
| Freshness.FailedFetchHandsOutNothing | geerpc/xclient/discovery_gee.go:48-51 | A fetch may fail at any time; then its Get fails, and the old snapshot is kept but not answered from. |
| Freshness.BoundIsReached | geerpc/xclient/discovery_gee.go:40-69 | For all timeouts there is a run that reaches the bound. |
| Frame.Pack | myzinx/znet/datapack.go:27-44 | Whatever a receiver's limit and whatever follows, it gets the message back exactly if the length field is that of the data and within the limit; otherwise it takes what the field says; and every strict prefix of a good frame is rejected. |
| Frame.PackedComesBackIff | myzinx/znet/datapack.go:27-71 | What a receiver makes of a printed message, for any length field. |
| Frame.Unpack | myzinx/znet/datapack.go:47-71 | Consumes and returns exactly one frame, or fails as reading or the size check fails. |
| Frame.LittleEndianRoundTrip | myzinx/znet/datapack.go:32-38 | Numbers that fit n bytes are read back from their n bytes. |
| Frame.FourBytesInOrder | myzinx/znet/datapack.go:32-38 | The four bytes of a field stand least significant first. |
| Frame.RoundTripIffFits | myzinx/znet/datapack.go:27-71 | A message built by NewMsgPackage comes back with what follows left over, if and only if its data is within the limit. |
| Frame.OversizedIsRefusedOrCut | myzinx/znet/datapack.go:58-69 | What a receiver makes of a frame with more data than its limit, exactly. |
| Frame.UnpackedWasPacked | myzinx/znet/datapack.go:47-71 | Only printed frames are accepted: the bytes consumed are the print of the message returned. |
| Frame.StrictPrefixRejected | myzinx/znet/datapack.go:47-71 | Every strict prefix of a frame is rejected, with the error that tells whether the cut was between fields. |
| Frame.StreamDecodesIffEncoded | myzinx/znet/datapack.go:27-71 | Reading frame by frame yields a list if and only if the bytes are its encoding and all its messages are within the limit. |
| Frame.EncodingInjective | myzinx/znet/message.go:10-16 | Distinct lists of messages within the limit have distinct encodings. |

## Left out

- Sockets, HTTP, gob, JSON, protobuf, logging and reflection. A method is an uninterpreted function of name and arguments, a connection a FIFO of header and body items that may be cut at any time.
- The singleflight, cluster, client and server protocols are step machines on values. The lock regions of singleflight and client are also methods on objects, each shown to take its machine's step; the server's and the cluster's are not.
- `Client.Call` (geerpc/client.go:251-261): its first receive consumes the only signal, so the select after it can only end with the context. Completion is stated for `Go`.
- Requests for unregistered names in the runs of `RpcSystem`; `RpcRuns.AlignedIffNamesKnown` shows that they must be left out.
- `GobCodec.Write` panics when the body does not encode (geerpc/codec/god.go:53-54), which ends the process. The model has a failed write there, as the line after the panic intends.
- The wording of the server's own errors: one text stands for every request that could not be read, one for the timeout. A method's error text travels unchanged; that `fmt.Errorf` (geerpc/client.go:117) takes it as a format, so that a percent sign in it comes out garbled, is not modelled.
- Cluster.InvInEveryRun: keys and group names travel between nodes unchanged; the query escaping of geecache/http.go:87 is not modelled.
- LruCache.Cache.Add: a negative maxBytes, with which the loop would not end, callbacks that call back into the cache, and 64-bit overflow of the byte count are excluded.
- Singleflight.SafeInEveryRun: an fn that panics is not modelled.
- Ring.Map.Add: the hash is an arbitrary function; CRC-32 is not part of this model.
- Sequence numbers, indices and clock arithmetic are unbounded.
- Discovery.MultiServersDiscovery.Get: the random number is an input in the range Intn promises; nothing is said of its distribution.
- Freshness.StalenessIsBounded: one client, no manual Update, a successful fetch takes at most fetchTime, addresses are clean, and headers travel unchanged. The time of a hand-out is the clock reading with which its Refresh ends.
- `GetAll` of the discoveries, which unlocks a lock it holds only for reading, and `geerpc/xclient/xclient.go`.
- Frame.Unpack: one in-memory buffer. Reading several frames from a live connection, where each call's buffered reader may read ahead, is not modelled; nor are `connection.go` and `msghandler.go`.
- Server-side registration of services, HTTP debug pages, main programs, configuration.
