/** What a shared ring adds: requests travel one hop, and a key is loaded on its owner only. */
module ClusterLoading {
  import opened Common
  import opened LruSpec
  import opened Cluster
  import SF = Singleflight
  import Peers
  import Ring

  /** Node n called Set with ps, an arrangement of the peers. */
  ghost predicate SetWith(cfg: Config, peers: set<string>, n: string, ps: seq<string>) {
    && n in cfg.nodes
    && cfg.nodes[n].pool == Some(Peers.PoolOf(cfg.hash, n, ps))
    && (forall x :: x in ps <==> x in peers)
  }

  /** All running nodes called Set with the same peers in some order, every one of them is a peer, and
      no two peers' virtual nodes collide. A peer need not be running. */
  ghost predicate SharedRing(cfg: Config, peers: set<string>) {
    && peers != {} && "" !in peers && cfg.nodes.Keys <= peers
    && (forall n :: n in cfg.nodes ==> exists ps :: SetWith(cfg, peers, n, ps))
    && Ring.NoCrossCollision(cfg.hash, Peers.DEFAULT_REPLICAS, peers)
  }

  /** Nodes that have all called Set with these peers in some order share a ring if and only if there are
      any peers, none is unnamed, every running node is one of them, and no two of them collide. */
  lemma SharedRingIff(hash: Ring.Hash, source: string -> Option<Bytes>, running: set<string>, peers: set<string>,
                      cacheBytes: nat, orders: string -> seq<string>)
    requires forall n, x :: n in running ==> (x in orders(n) <==> x in peers)
    ensures var nodes := map n | n in running :: Node(Some(Peers.PoolOf(hash, n, orders(n))), cacheBytes);
            SharedRing(Config(hash, source, nodes), peers) <==>
            && peers != {} && "" !in peers && running <= peers
            && Ring.NoCrossCollision(hash, Peers.DEFAULT_REPLICAS, peers)
  {
    var nodes := map n | n in running :: Node(Some(Peers.PoolOf(hash, n, orders(n))), cacheBytes);
    var cfg := Config(hash, source, nodes);
    assert nodes.Keys == running;
    forall n | n in running ensures SetWith(cfg, peers, n, orders(n)) {
    }
  }

  lemma SharedRingValid(cfg: Config, peers: set<string>)
    requires SharedRing(cfg, peers)
    ensures ValidConfig(cfg)
  {
    forall n | n in cfg.nodes ensures cfg.nodes[n].pool.Some? && Ring.Consistent(cfg.nodes[n].pool.value.ring) {
      var ps :| SetWith(cfg, peers, n, ps);
    }
  }

  /** Every node sends a key to the same owner, except the owner itself. */
  ghost predicate Agreed(cfg: Config, owner: string -> string) {
    && ValidConfig(cfg)
    && (forall n, key :: n in cfg.nodes ==> AgreedAt(cfg, owner, n, key))
  }

  ghost predicate AgreedAt(cfg: Config, owner: string -> string, n: string, key: string)
    requires ValidConfig(cfg) && n in cfg.nodes
  {
    PickAt(cfg, n, key) == if owner(key) == n then None else Some(owner(key))
  }

  /** The node that a ring of the peers ps names for a key. */
  ghost function OwnerBy(cfg: Config, ps: seq<string>): string -> string {
    key => Ring.Locate(cfg.hash, Peers.PoolOf(cfg.hash, "", ps).ring, key)
  }

  /** The owner the ring of the peers names for a key, running or not. */
  ghost function OwnerOf(cfg: Config, peers: set<string>): (owner: string -> string)
    requires SharedRing(cfg, peers)
    ensures Agreed(cfg, owner) && forall key :: owner(key) in peers
  {
    var ps := Arrangement(peers);
    RingOwner(cfg, peers, ps);
    OwnerBy(cfg, ps)
  }

  ghost function Arrangement(peers: set<string>): (ps: seq<string>)
    ensures forall x :: x in ps <==> x in peers
  {
    if peers == {} then [] else var x :| x in peers; [x] + Arrangement(peers - {x})
  }

  lemma RingOwner(cfg: Config, peers: set<string>, ps: seq<string>)
    requires SharedRing(cfg, peers) && forall x :: x in ps <==> x in peers
    ensures Agreed(cfg, OwnerBy(cfg, ps)) && forall key :: OwnerBy(cfg, ps)(key) in peers
  {
    hide SharedRing, Peers.PoolOf, Peers.Pick, Ring.Locate, Ring.Consistent;
    SharedRingValid(cfg, peers);
    var owner := OwnerBy(cfg, ps);
    forall key ensures owner(key) in peers {
      OwnerIsPeer(cfg, peers, ps, key);
    }
    forall n, key | n in cfg.nodes ensures AgreedAt(cfg, owner, n, key) {
      PicksSharedOwner(cfg, peers, ps, n, key);
    }
  }

  lemma OwnerIsPeer(cfg: Config, peers: set<string>, ps: seq<string>, key: string)
    requires SharedRing(cfg, peers) && forall x :: x in ps <==> x in peers
    ensures OwnerBy(cfg, ps)(key) in peers
  {
    hide Peers.PoolOf, Ring.Locate, Ring.Consistent, Ring.NoCrossCollision;
    var x :| x in peers;
    assert x in ps;
    Peers.LocatedIsPeer(cfg.hash, "", ps, key);
  }

  lemma PicksSharedOwner(cfg: Config, peers: set<string>, ps: seq<string>, n: string, key: string)
    requires SharedRing(cfg, peers) && n in cfg.nodes && ValidConfig(cfg)
    requires forall x :: x in ps <==> x in peers
    ensures AgreedAt(cfg, OwnerBy(cfg, ps), n, key)
  {
    hide Peers.PoolOf, Peers.Pick, Ring.Locate, Ring.NoCrossCollision, Ring.Consistent;
    var qs :| SetWith(cfg, peers, n, qs);
    assert n in qs;
    assert (set x | x in ps) == peers;
    Peers.PickByOwner(cfg.hash, n, qs, key);
    Peers.SamePeersSameOwner(cfg.hash, "", ps, n, qs, key);
  }

  // ---------------------------------------------------------------- one hop

  /** A Get serving a peer runs on the owner of its key. */
  ghost predicate OnOwner(owner: string -> string, th: Thread) {
    th.forPeer ==> th.node == owner(th.key)
  }

  ghost predicate PeersOnOwner(owner: string -> string, s: State) {
    forall t :: 0 <= t < |s.threads| ==> OnOwner(owner, s.threads[t])
  }

  lemma StartedOnOwner(cfg: Config, owner: string -> string, s: State, a: Action, t: Tid)
    requires Agreed(cfg, owner) && Shaped(cfg, s) && Enabled(cfg, s, a) && |s.threads| <= t < |Do(cfg, s, a).threads|
    ensures OnOwner(owner, Do(cfg, s, a).threads[t])
  {
    if a.Pick? {
      assert AgreedAt(cfg, owner, s.threads[a.t].node, s.threads[a.t].key);
    }
    hide Agreed, Peers.Pick, Find, TouchIn, AddTo, SF.Do, SF.Enabled;
  }

  lemma PeersOnOwnerStep(cfg: Config, owner: string -> string, s: State, a: Action)
    requires Agreed(cfg, owner) && Shaped(cfg, s) && Enabled(cfg, s, a) && PeersOnOwner(owner, s)
    ensures PeersOnOwner(owner, Do(cfg, s, a))
  {
    hide Do, Enabled;
    StepFramed(cfg, s, a);
    var s' := Do(cfg, s, a);
    forall t | 0 <= t < |s'.threads| ensures OnOwner(owner, s'.threads[t]) {
      if t < |s.threads| {
        assert OnOwner(owner, s.threads[t]) && SameGet(s.threads[t], s'.threads[t]);
      } else {
        StartedOnOwner(cfg, owner, s, a, t);
      }
    }
  }

  lemma {:induction false} PeersOnOwnerInEveryRun(cfg: Config, owner: string -> string, r: Run, i: nat)
    requires ValidConfig(cfg) && Agreed(cfg, owner) && IsRun(cfg, r) && i < |r.states|
    ensures PeersOnOwner(owner, r.states[i])
  {
    if i > 0 {
      PeersOnOwnerInEveryRun(cfg, owner, r, i - 1);
      PeersOnOwnerStep(cfg, owner, r.states[i - 1], r.actions[i - 1]);
    }
  }

  /** A forwarded Get is never forwarded again, and it is forwarded to the owner. */
  lemma AtMostOneHop(cfg: Config, peers: set<string>, r: Run, i: nat, t: Tid)
    requires SharedRing(cfg, peers) && ValidConfig(cfg) && IsRun(cfg, r) && i < |r.states|
    requires t < |r.states[i].threads| && r.states[i].threads[t].forPeer
    ensures r.states[i].threads[t].node == OwnerOf(cfg, peers)(r.states[i].threads[t].key)
    ensures !(r.states[i].threads[t].pc.InDo? && r.states[i].threads[t].pc.load.Awaiting?)
  {
    var owner, th := OwnerOf(cfg, peers), r.states[i].threads[t];
    PeersOnOwnerInEveryRun(cfg, owner, r, i);
    InvInEveryRun(cfg, r, i);
    assert OnOwner(owner, th) && ThreadOk(cfg, r.states[i], t);
    assert AgreedAt(cfg, owner, th.node, th.key);
  }

  // ---------------------------------------------------------------- loading on the owner only

  /** The Get has gone on to the local getter. */
  predicate LoadsLocally(th: Thread) {
    th.pc.InDo? && (th.pc.load.AtGetter? || th.pc.load.InGetter? || th.pc.load.Storing?)
  }

  ghost predicate LocalOnOwner(owner: string -> string, th: Thread) {
    LoadsLocally(th) ==> th.node == owner(th.key)
  }

  ghost predicate CachedOnOwner(owner: string -> string, n: string, c: Recency) {
    forall e :: e in c ==> owner(e.key) == n
  }

  /** While no peer request has failed, getter calls and cached entries are on owners. */
  ghost predicate OwnersOnly(owner: string -> string, s: State) {
    s.peerFailed || (
      && (forall t :: 0 <= t < |s.threads| ==> LocalOnOwner(owner, s.threads[t]))
      && (forall n :: n in s.caches ==> CachedOnOwner(owner, n, s.caches[n])))
  }

  ghost predicate InvHolds(cfg: Config, s: State) {
    ValidConfig(cfg) && Inv(cfg, s)
  }

  lemma InvShaped(cfg: Config, s: State)
    requires InvHolds(cfg, s)
    ensures ValidConfig(cfg) && Shaped(cfg, s)
  {
  }

  lemma GroupLocal(cfg: Config, owner: string -> string, s: State, a: Action)
    requires ValidConfig(cfg) && Shaped(cfg, s) && Enabled(cfg, s, a) && a.Group?
    ensures a.t < |Do(cfg, s, a).threads| && LocalOnOwner(owner, Do(cfg, s, a).threads[a.t])
  {
    hide SF.Do, SF.Enabled;
  }

  lemma PlainLocal(cfg: Config, owner: string -> string, s: State, a: Action)
    requires Agreed(cfg, owner) && Shaped(cfg, s) && Enabled(cfg, s, a) && !a.Arrive? && !a.Group?
    requires LocalOnOwner(owner, s.threads[a.t]) && !PlainEffect(cfg, s, a).failed
    ensures LocalOnOwner(owner, s.threads[a.t].(pc := PlainEffect(cfg, s, a).pc))
  {
    if a.Pick? {
      assert AgreedAt(cfg, owner, s.threads[a.t].node, s.threads[a.t].key);
    }
    hide Agreed, Peers.Pick, Find, TouchIn, AddTo;
  }

  lemma OwnThreadLocal(cfg: Config, owner: string -> string, s: State, a: Action)
    requires Agreed(cfg, owner) && Shaped(cfg, s) && Enabled(cfg, s, a) && !a.Arrive? && a.t < |s.threads|
    requires LocalOnOwner(owner, s.threads[a.t]) && !Do(cfg, s, a).peerFailed
    ensures a.t < |Do(cfg, s, a).threads| && LocalOnOwner(owner, Do(cfg, s, a).threads[a.t])
  {
    assert ValidConfig(cfg);
    hide Agreed, PlainEffect, LocalOnOwner, DoGroup, GroupEnabled;
    if a.Group? {
      GroupLocal(cfg, owner, s, a);
    } else {
      PlainLocal(cfg, owner, s, a);
    }
  }

  lemma CachesLocal(cfg: Config, owner: string -> string, s: State, a: Action, n: string)
    requires InvHolds(cfg, s) && Enabled(cfg, s, a) && !a.Arrive? && n in s.caches
    requires LocalOnOwner(owner, s.threads[a.t]) && CachedOnOwner(owner, n, s.caches[n])
    ensures n in Do(cfg, s, a).caches && CachedOnOwner(owner, n, Do(cfg, s, a).caches[n])
  {
    assert CacheOk(cfg, s, s.threads[a.t].node);
    hide Inv, CachedOnOwner, PlainEffect, CacheOk, LocalOnOwner, Do, GroupEnabled;
    CachesFramed(cfg, s, a, n);
    if !a.Group? && s.threads[a.t].node == n {
      EffectLocal(cfg, owner, s, a);
    }
  }

  lemma EffectLocal(cfg: Config, owner: string -> string, s: State, a: Action)
    requires ValidConfig(cfg) && Shaped(cfg, s) && Enabled(cfg, s, a) && !a.Arrive? && !a.Group?
    requires CacheOk(cfg, s, s.threads[a.t].node)
    requires LocalOnOwner(owner, s.threads[a.t])
    requires CachedOnOwner(owner, s.threads[a.t].node, s.caches[s.threads[a.t].node])
    ensures CachedOnOwner(owner, s.threads[a.t].node, PlainEffect(cfg, s, a).cache)
  {
    hide PickEffect;
    var n, key := s.threads[a.t].node, s.threads[a.t].key;
    if a.LookUp? {
      TouchKeepsMembers(s.caches[n], key);
    } else if a.Store? {
      AddKeepsMembers(cfg.nodes[n].cacheBytes, s.caches[n], key, s.threads[a.t].pc.load.value);
    } else if a.Pick? {
      PickKeepsCache(cfg, s, a.t);
    }
  }

  lemma PickKeepsCache(cfg: Config, s: State, t: Tid)
    requires ValidConfig(cfg) && Shaped(cfg, s) && t < |s.threads|
    ensures PickEffect(cfg, s, t).cache == s.caches[s.threads[t].node]
  {
    hide Peers.Pick;
  }

  /** A Get that starts, or does not move, loads nothing locally. */
  lemma OthersLocal(owner: string -> string, a: seq<Thread>, b: seq<Thread>, t: int, u: Tid)
    requires ThreadsFramed(a, b, t) && u < |b| && u != t
    requires u < |a| ==> LocalOnOwner(owner, a[u])
    ensures LocalOnOwner(owner, b[u])
  {
  }

  lemma ArrivalKeepsCaches(cfg: Config, s: State, a: Action)
    requires ValidConfig(cfg) && Shaped(cfg, s) && Enabled(cfg, s, a)
    ensures s.peerFailed ==> Do(cfg, s, a).peerFailed
    ensures a.Arrive? ==> Do(cfg, s, a).caches == s.caches && Do(cfg, s, a).peerFailed == s.peerFailed
    ensures Do(cfg, s, a).caches.Keys == s.caches.Keys
  {
    hide PlainEffect;
  }

  lemma OwnersOnlyStep(cfg: Config, owner: string -> string, s: State, a: Action)
    requires Agreed(cfg, owner) && InvHolds(cfg, s) && Enabled(cfg, s, a) && OwnersOnly(owner, s)
    ensures OwnersOnly(owner, Do(cfg, s, a))
  {
    hide Do, Enabled, ThreadsFramed, LocalOnOwner, CachedOnOwner, Inv, Agreed;
    InvShaped(cfg, s);
    StepFramed(cfg, s, a);
    ArrivalKeepsCaches(cfg, s, a);
    var s' := Do(cfg, s, a);
    if !s'.peerFailed {
      if !a.Arrive? {
        ActorExists(cfg, s, a);
        OwnThreadLocal(cfg, owner, s, a);
      }
      forall t | 0 <= t < |s'.threads| ensures LocalOnOwner(owner, s'.threads[t]) {
        if t != Actor(a) {
          OthersLocal(owner, s.threads, s'.threads, Actor(a), t);
        }
      }
      forall n | n in s'.caches ensures CachedOnOwner(owner, n, s'.caches[n]) {
        if !a.Arrive? {
          CachesLocal(cfg, owner, s, a, n);
        }
      }
    }
  }

  lemma ActorExists(cfg: Config, s: State, a: Action)
    requires ValidConfig(cfg) && Shaped(cfg, s) && Enabled(cfg, s, a) && !a.Arrive?
    ensures a.t < |s.threads|
  {
  }

  lemma InitOwnersOnly(cfg: Config, owner: string -> string)
    ensures OwnersOnly(owner, Init(cfg))
  {
  }

  lemma {:induction false} OwnersOnlyInEveryRun(cfg: Config, owner: string -> string, r: Run, i: nat)
    requires ValidConfig(cfg) && Agreed(cfg, owner) && IsRun(cfg, r) && i < |r.states|
    ensures OwnersOnly(owner, r.states[i])
  {
    hide Inv, Do, Enabled, OwnersOnly, Agreed, IsRun, ValidConfig;
    RunStep(cfg, r, i);
    if i == 0 {
      InitOwnersOnly(cfg, owner);
    } else {
      OwnersOnlyInEveryRun(cfg, owner, r, i - 1);
      InvInEveryRun(cfg, r, i - 1);
      OwnersOnlyStep(cfg, owner, r.states[i - 1], r.actions[i - 1]);
    }
  }

  ghost predicate SameKeyCalls(s: State, t: Tid, u: Tid) {
    && t < |s.threads| && u < |s.threads|
    && CallsGetter(s, t) && CallsGetter(s, u)
    && s.threads[t].key == s.threads[u].key
  }

  ghost predicate BothCache(s: State, n: string, m: string, key: string) {
    && n in s.caches && m in s.caches
    && HasKey(s.caches[n], key) && HasKey(s.caches[m], key)
  }

  ghost predicate SingleLoading(owner: string -> string, s: State) {
    // at most one getter call per key in the whole cluster, and it runs on the owner
    && (forall t: Tid, u: Tid :: SameKeyCalls(s, t, u) ==> t == u)
    && (forall t: Tid :: t < |s.threads| && CallsGetter(s, t) ==> s.threads[t].node == owner(s.threads[t].key))
    // no key is cached on two nodes
    && (forall n, m, key :: BothCache(s, n, m, key) ==> n == m)
  }

  lemma OwnersLoadSingly(cfg: Config, owner: string -> string, s: State)
    requires InvHolds(cfg, s) && OwnersOnly(owner, s) && !s.peerFailed
    ensures SingleLoading(owner, s)
  {
    forall t: Tid | t < |s.threads| && CallsGetter(s, t) ensures s.threads[t].node == owner(s.threads[t].key) {
      assert LocalOnOwner(owner, s.threads[t]);
    }
    forall t: Tid, u: Tid | SameKeyCalls(s, t, u) ensures t == u {
      assert LocalOnOwner(owner, s.threads[t]) && LocalOnOwner(owner, s.threads[u]);
      OneGetterPerNode(cfg, s, t, u);
    }
    forall n, m, key | BothCache(s, n, m, key) ensures n == m {
      assert CachedOnOwner(owner, n, s.caches[n]) && CachedOnOwner(owner, m, s.caches[m]);
      var i :| 0 <= i < |s.caches[n]| && s.caches[n][i].key == key;
      var j :| 0 <= j < |s.caches[m]| && s.caches[m][j].key == key;
      assert s.caches[n][i] in s.caches[n] && s.caches[m][j] in s.caches[m];
    }
  }

  /** As long as no peer request has returned an error. */
  lemma SingleLoadingInEveryRun(cfg: Config, peers: set<string>, r: Run, i: nat)
    requires SharedRing(cfg, peers) && ValidConfig(cfg) && IsRun(cfg, r) && i < |r.states|
    requires !r.states[i].peerFailed
    ensures SingleLoading(OwnerOf(cfg, peers), r.states[i])
  {
    OwnersOnlyInEveryRun(cfg, OwnerOf(cfg, peers), r, i);
    InvInEveryRun(cfg, r, i);
    OwnersLoadSingly(cfg, OwnerOf(cfg, peers), r.states[i]);
  }
}
