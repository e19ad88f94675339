/** Several nodes serving Gets: each has a cache, a flight group and a view of its peers, and asks
    the owner of a key before loading it itself. */
module Cluster {
  import opened Common
  import opened LruSpec
  import SF = Singleflight
  import Peers
  import Ring

  type Tid = nat

  datatype Reply = Ok(value: Bytes) | Failed

  /** pool is None on a node where no peers were registered. */
  datatype Node = Node(pool: Option<Peers.Pool>, cacheBytes: nat)

  /** source(key) is the value every successful getter call returns for key; a call may also fail. */
  datatype Config = Config(hash: Ring.Hash, source: string -> Option<Bytes>, nodes: map<string, Node>)

  /** What the function handed to Do is at, for the goroutine that runs it. */
  datatype Loading =
    | NotLoading
    | Picking
    | Awaiting(child: Option<Tid>)  // a peer request is out; None if nobody serves that address
    | AtGetter
    | InGetter
    | Storing(value: Bytes)
    | FnDone(reply: Reply)

  datatype Pc = Start | Missed | InDo(load: Loading) | Finished(reply: Reply)

  /** One Get; forPeer marks a Get that serves a peer's request. */
  datatype Thread = Thread(node: string, key: string, forPeer: bool, pc: Pc)

  datatype State = State(
    threads: seq<Thread>,
    flights: map<string, SF.State<Reply>>,
    caches: map<string, Recency>,
    peerFailed: bool)  // whether some peer request has returned an error

  datatype Action =
    | Arrive(node: string, key: string)   // a client calls Get
    | LookUp(t: Tid)                      // empty key, or mainCache.get
    | Pick(t: Tid)                        // PickPeer, and sending the request if a peer is picked
    | PeerReply(t: Tid)                   // the peer's Get has finished
    | PeerError(t: Tid)                   // the request itself fails
    | CallGetter(t: Tid)
    | GetterReturn(t: Tid, ok: bool)
    | Store(t: Tid)                       // populateCache
    | Group(t: Tid, step: GroupStep)      // a step of Do on the node's flight group

  datatype GroupStep = EnterDo | AssignResult | Signal | Delete | Wake | Exit

  function Init(cfg: Config): State {
    State([], map n | n in cfg.nodes :: SF.Init(), map n | n in cfg.nodes :: [], false)
  }

  ghost predicate ValidConfig(cfg: Config) {
    forall n :: n in cfg.nodes && cfg.nodes[n].pool.Some? ==> Ring.Consistent(cfg.nodes[n].pool.value.ring)
  }

  /** The peer node n asks for a key, if any. */
  function PickAt(cfg: Config, n: string, key: string): Option<string>
    requires ValidConfig(cfg) && n in cfg.nodes
  {
    match cfg.nodes[n].pool
    case None => None
    case Some(pool) => Peers.Pick(cfg.hash, pool, key)
  }

  ghost predicate Shaped(cfg: Config, s: State) {
    && s.flights.Keys == cfg.nodes.Keys
    && s.caches.Keys == cfg.nodes.Keys
    && (forall t :: 0 <= t < |s.threads| ==> s.threads[t].node in cfg.nodes)
  }

  function Flight(s: State, t: Tid): SF.State<Reply>
    requires t < |s.threads| && s.threads[t].node in s.flights
  {
    s.flights[s.threads[t].node]
  }

  predicate Loads(s: State, t: Tid)
    requires t < |s.threads| && s.threads[t].node in s.flights
  {
    s.threads[t].pc.InDo? && Flight(s, t).At(t).InFn?
  }

  /** The step of the node's flight group that a group step is. */
  function FlightAction(th: Thread, t: Tid, step: GroupStep): SF.Action<Reply> {
    match step
    case EnterDo => SF.Enter(t, th.key)
    case AssignResult => SF.Assign(t, if th.pc.InDo? && th.pc.load.FnDone? then th.pc.load.reply else Failed)
    case Signal => SF.Signal(t)
    case Delete => SF.Delete(t)
    case Wake => SF.Wake(t)
    case Exit => SF.Leave(t)
  }

  predicate GroupEnabled(th: Thread, f: SF.State<Reply>, t: Tid, step: GroupStep) {
    && (if step.EnterDo? then th.pc.Missed? else th.pc.InDo?)
    && (step.AssignResult? ==> th.pc.InDo? && th.pc.load.FnDone?)
    && SF.Enabled(f, FlightAction(th, t, step))
  }

  ghost predicate Enabled(cfg: Config, s: State, a: Action)
    requires ValidConfig(cfg) && Shaped(cfg, s)
  {
    if a.Arrive? then a.node in cfg.nodes
    else
      && a.t < |s.threads|
      && var pc := s.threads[a.t].pc;
         match a
         case LookUp(t) => pc.Start?
         case Pick(t) => Loads(s, t) && pc.load.Picking?
         case PeerReply(t) =>
           && Loads(s, t) && pc.load.Awaiting? && pc.load.child.Some?
           && pc.load.child.value < |s.threads| && s.threads[pc.load.child.value].pc.Finished?
         case PeerError(t) => Loads(s, t) && pc.load.Awaiting?
         case CallGetter(t) => Loads(s, t) && pc.load.AtGetter?
         case GetterReturn(t, ok) =>
           Loads(s, t) && pc.load.InGetter? && (ok ==> cfg.source(s.threads[t].key).Some?)
         case Store(t) => Loads(s, t) && pc.load.Storing?
         case Group(t, step) => GroupEnabled(s.threads[t], Flight(s, t), t, step)
  }

  /** What a step outside the flight group does for its Get: the next pc, the node's cache, the Gets
      it starts elsewhere, and whether a peer request came back with an error. */
  datatype Effect = Effect(pc: Pc, cache: Recency, started: seq<Thread>, failed: bool)

  function Apply(s: State, t: Tid, e: Effect): State
    requires t < |s.threads|
  {
    var th := s.threads[t];
    State(s.threads[t := th.(pc := e.pc)] + e.started, s.flights, s.caches[th.node := e.cache],
          s.peerFailed || e.failed)
  }

  /** The empty key is rejected; a hit returns at once and refreshes the entry. */
  function LookUpEffect(th: Thread, cache: Recency): Effect {
    if th.key == "" then Effect(Finished(Failed), cache, [], false)
    else match Find(cache, th.key)
      case Some(v) => Effect(Finished(Ok(v)), TouchIn(cache, th.key), [], false)
      case None => Effect(Missed, cache, [], false)
  }

  /** Ask the picked peer by starting a Get there, or go on to the local getter. */
  function PickEffect(cfg: Config, s: State, t: Tid): Effect
    requires ValidConfig(cfg) && Shaped(cfg, s) && t < |s.threads|
  {
    var th := s.threads[t];
    var cache := s.caches[th.node];
    match PickAt(cfg, th.node, th.key)
    case None => Effect(InDo(AtGetter), cache, [], false)
    case Some(peer) =>
      if peer in cfg.nodes then
        Effect(InDo(Awaiting(Some(|s.threads|))), cache, [Thread(peer, th.key, true, Start)], false)
      else Effect(InDo(Awaiting(None)), cache, [], false)
  }

  ghost function PlainEffect(cfg: Config, s: State, a: Action): Effect
    requires ValidConfig(cfg) && Shaped(cfg, s) && Enabled(cfg, s, a) && !a.Arrive? && !a.Group?
  {
    var th := s.threads[a.t];
    var cache := s.caches[th.node];
    match a
    case LookUp(t) => LookUpEffect(th, cache)
    case Pick(t) => PickEffect(cfg, s, t)
    case PeerReply(t) =>
      var r := s.threads[th.pc.load.child.value].pc.reply;
      if r.Ok? then Effect(InDo(FnDone(r)), cache, [], false) else Effect(InDo(AtGetter), cache, [], true)
    case PeerError(t) => Effect(InDo(AtGetter), cache, [], true)
    case CallGetter(t) => Effect(InDo(InGetter), cache, [], false)
    case GetterReturn(t, ok) =>
      Effect(InDo(if ok then Storing(cfg.source(th.key).value) else FnDone(Failed)), cache, [], false)
    case Store(t) =>
      Effect(InDo(FnDone(Ok(th.pc.load.value))),
             AddTo(cfg.nodes[th.node].cacheBytes, cache, th.key, th.pc.load.value), [], false)
  }

  function ReadReply(pc: SF.Pc<Reply>): Reply {
    if pc.Returned? && pc.result.Some? then pc.result.value else Failed
  }

  /** The pc of a Get after its flight group moved from f to f'. */
  function PcAfterGroup(f: SF.State<Reply>, f': SF.State<Reply>, t: Tid, step: GroupStep): Pc {
    match step
    case EnterDo => InDo(if f'.At(t).InFn? then Picking else NotLoading)
    case Exit => Finished(ReadReply(f.At(t)))
    case AssignResult => InDo(NotLoading)
    case Signal => InDo(NotLoading)
    case Delete => InDo(NotLoading)
    case Wake => InDo(NotLoading)
  }

  function DoGroup(s: State, t: Tid, step: GroupStep): State
    requires t < |s.threads| && s.threads[t].node in s.flights
    requires GroupEnabled(s.threads[t], Flight(s, t), t, step)
  {
    var th, f := s.threads[t], Flight(s, t);
    var f' := SF.Do(f, FlightAction(th, t, step));
    s.(flights := s.flights[th.node := f'], threads := s.threads[t := th.(pc := PcAfterGroup(f, f', t, step))])
  }

  ghost function Do(cfg: Config, s: State, a: Action): State
    requires ValidConfig(cfg) && Shaped(cfg, s) && Enabled(cfg, s, a)
  {
    if a.Arrive? then s.(threads := s.threads + [Thread(a.node, a.key, false, Start)])
    else if a.Group? then DoGroup(s, a.t, a.step)
    else Apply(s, a.t, PlainEffect(cfg, s, a))
  }

  // ---------------------------------------------------------------- invariant

  /** A reply for key is the source's value or an error. */
  predicate Truthful(cfg: Config, key: string, r: Reply) {
    r.Ok? ==> cfg.source(key) == Some(r.value)
  }

  /** What is known of a Get from its pc alone. */
  ghost predicate LoadOk(cfg: Config, threads: seq<Thread>, th: Thread)
    requires ValidConfig(cfg) && th.node in cfg.nodes
  {
    && (th.pc.Finished? ==> Truthful(cfg, th.key, th.pc.reply))
    && (th.pc.InDo? ==>
          var load := th.pc.load;
          && (load.Storing? ==> cfg.source(th.key) == Some(load.value))
          && (load.FnDone? ==> Truthful(cfg, th.key, load.reply))
          && (load.Awaiting? ==> AwaitOk(cfg, threads, th, load.child)))
  }

  /** A peer request went to the picked peer and asks for the same key. */
  ghost predicate AwaitOk(cfg: Config, threads: seq<Thread>, th: Thread, child: Option<Tid>)
    requires ValidConfig(cfg) && th.node in cfg.nodes
  {
    && PickAt(cfg, th.node, th.key).Some?
    && var peer := PickAt(cfg, th.node, th.key).value;
       if child.None? then peer !in cfg.nodes
       else
         && child.value < |threads|
         && var c := threads[child.value];
            c.node == peer && c.key == th.key && c.forPeer
  }

  /** A Get and its place in the node's flight group agree. */
  ghost predicate ThreadOk(cfg: Config, s: State, t: Tid)
    requires ValidConfig(cfg) && Shaped(cfg, s) && t < |s.threads|
  {
    var th, at := s.threads[t], Flight(s, t).At(t);
    && (th.pc.InDo? <==> !at.Outside?)
    && (th.pc.InDo? ==>
          && (at.InFn? <==> !th.pc.load.NotLoading?)
          && at.call < |Flight(s, t).calls| && Flight(s, t).calls[at.call].key == th.key)
    && LoadOk(cfg, s.threads, th)
  }

  /** A flight group involves only Gets on its own node, and its results are truthful. */
  ghost predicate FlightOk(cfg: Config, s: State, n: string)
    requires Shaped(cfg, s) && n in cfg.nodes
  {
    && SF.Inv(s.flights[n])
    && (forall t: Tid :: !s.flights[n].At(t).Outside? ==> t < |s.threads| && s.threads[t].node == n)
    && (forall c: nat :: c < |s.flights[n].calls| && s.flights[n].calls[c].result.Some? ==>
          Truthful(cfg, s.flights[n].calls[c].key, s.flights[n].calls[c].result.value))
  }

  ghost predicate CacheOk(cfg: Config, s: State, n: string)
    requires Shaped(cfg, s) && n in cfg.nodes
  {
    && DistinctKeys(s.caches[n])
    && (forall e :: e in s.caches[n] ==> cfg.source(e.key) == Some(e.value))
  }

  ghost predicate Inv(cfg: Config, s: State)
    requires ValidConfig(cfg)
  {
    && Shaped(cfg, s)
    && (forall t :: 0 <= t < |s.threads| ==> ThreadOk(cfg, s, t))
    && (forall n :: n in cfg.nodes ==> FlightOk(cfg, s, n))
    && (forall n :: n in cfg.nodes ==> CacheOk(cfg, s, n))
  }

  /** What the invariant says of one Get and its node. */
  lemma InvAt(cfg: Config, s: State, t: Tid)
    requires ValidConfig(cfg) && Inv(cfg, s) && t < |s.threads|
    ensures Shaped(cfg, s) && ThreadOk(cfg, s, t)
    ensures FlightOk(cfg, s, s.threads[t].node) && CacheOk(cfg, s, s.threads[t].node)
  {
  }

  lemma InitInv(cfg: Config)
    requires ValidConfig(cfg)
    ensures Inv(cfg, Init(cfg))
  {
  }

  // ---------------------------------------------------------------- the invariant is kept

  predicate SameGet(a: Thread, b: Thread) {
    a.node == b.node && a.key == b.key && a.forPeer == b.forPeer
  }

  /** Gets keep their node and key, and only the acting one moves. */
  ghost predicate ThreadsFramed(a: seq<Thread>, b: seq<Thread>, t: int) {
    && |a| <= |b|
    && (forall u :: 0 <= u < |a| ==> SameGet(a[u], b[u]) && (u != t ==> a[u] == b[u]))
    && (forall u :: |a| <= u < |b| ==> b[u].pc.Start?)
  }

  lemma EffectFramed(cfg: Config, s: State, a: Action)
    requires ValidConfig(cfg) && Shaped(cfg, s) && Enabled(cfg, s, a) && !a.Arrive? && !a.Group?
    ensures var e := PlainEffect(cfg, s, a);
            forall i :: 0 <= i < |e.started| ==> e.started[i].pc.Start? && e.started[i].node in cfg.nodes
  {
  }

  function Actor(a: Action): int {
    if a.Arrive? then -1 else a.t
  }

  lemma StepFramed(cfg: Config, s: State, a: Action)
    requires ValidConfig(cfg) && Shaped(cfg, s) && Enabled(cfg, s, a)
    ensures Shaped(cfg, Do(cfg, s, a))
    ensures ThreadsFramed(s.threads, Do(cfg, s, a).threads, Actor(a))
    ensures !a.Group? ==> Do(cfg, s, a).flights == s.flights
  {
    if a.Arrive? || a.Group? {
    } else {
      EffectFramed(cfg, s, a);
      ApplyFramed(cfg, s, a.t, PlainEffect(cfg, s, a));
    }
  }

  lemma ApplyFramed(cfg: Config, s: State, t: Tid, e: Effect)
    requires Shaped(cfg, s) && t < |s.threads|
    requires forall i :: 0 <= i < |e.started| ==> e.started[i].pc.Start? && e.started[i].node in cfg.nodes
    ensures Shaped(cfg, Apply(s, t, e))
    ensures ThreadsFramed(s.threads, Apply(s, t, e).threads, t)
  {
  }

  /** A group step touches one goroutine; calls keep their keys. */
  lemma GroupStepFrame(f: SF.State<Reply>, a: SF.Action<Reply>)
    requires SF.Enabled(f, a)
    ensures forall u: Tid :: u != a.t ==> SF.Do(f, a).At(u) == f.At(u)
    ensures |f.calls| <= |SF.Do(f, a).calls|
    ensures forall c :: 0 <= c < |f.calls| ==> SF.Do(f, a).calls[c].key == f.calls[c].key
  {
  }

  /** New results in a flight group are the acting leader's replies. */
  lemma GroupStepResults(f: SF.State<Reply>, a: SF.Action<Reply>, c: nat)
    requires SF.Enabled(f, a) && c < |SF.Do(f, a).calls| && SF.Do(f, a).calls[c].result.Some?
    ensures c < |f.calls|
    ensures (a.Assign? && c == f.At(a.t).call && SF.Do(f, a).calls[c].result == Some(a.value))
         || SF.Do(f, a).calls[c].result == f.calls[c].result
  {
  }

  /** Only a group step touches a flight group, and only that of its node. */
  lemma FlightsFramed(cfg: Config, s: State, a: Action, n: string)
    requires ValidConfig(cfg) && Shaped(cfg, s) && Enabled(cfg, s, a) && n in s.flights
    requires a.Group? ==> s.threads[a.t].node != n
    ensures n in Do(cfg, s, a).flights && Do(cfg, s, a).flights[n] == s.flights[n]
  {
    hide PlainEffect;
  }

  lemma FlightOkFramed(cfg: Config, s: State, s': State, n: string, t: int)
    requires Shaped(cfg, s) && Shaped(cfg, s') && n in cfg.nodes && FlightOk(cfg, s, n)
    requires s'.flights[n] == s.flights[n] && ThreadsFramed(s.threads, s'.threads, t)
    ensures FlightOk(cfg, s', n)
  {
    hide SF.Inv;
    forall u: Tid | !s'.flights[n].At(u).Outside? ensures u < |s'.threads| && s'.threads[u].node == n {
      assert SameGet(s.threads[u], s'.threads[u]);
    }
  }

  lemma FlightStep(cfg: Config, s: State, a: Action, n: string)
    requires ValidConfig(cfg) && Inv(cfg, s) && Enabled(cfg, s, a) && n in cfg.nodes
    ensures Shaped(cfg, Do(cfg, s, a)) && FlightOk(cfg, Do(cfg, s, a), n)
  {
    StepFramed(cfg, s, a);
    assert FlightOk(cfg, s, n);
    if a.Group? && s.threads[a.t].node == n {
      GroupFlightStep(cfg, s, a);
    } else {
      hide FlightOk, Inv, Enabled, Do, Shaped, ThreadsFramed;
      FlightsFramed(cfg, s, a, n);
      FlightOkFramed(cfg, s, Do(cfg, s, a), n, Actor(a));
    }
  }

  lemma GroupFlightStep(cfg: Config, s: State, a: Action)
    requires ValidConfig(cfg) && Inv(cfg, s) && Enabled(cfg, s, a) && a.Group?
    ensures Shaped(cfg, Do(cfg, s, a)) && FlightOk(cfg, Do(cfg, s, a), s.threads[a.t].node)
  {
    hide FlightOk, ThreadOk, CacheOk, GroupEnabled, DoGroup;
    StepFramed(cfg, s, a);
    InvAt(cfg, s, a.t);
    GroupKeepsFlightOk(cfg, s, a.t, a.step);
  }

  lemma GroupKeepsFlightOk(cfg: Config, s: State, t: Tid, step: GroupStep)
    requires ValidConfig(cfg) && Shaped(cfg, s) && t < |s.threads| && ThreadOk(cfg, s, t)
    requires FlightOk(cfg, s, s.threads[t].node)
    requires GroupEnabled(s.threads[t], Flight(s, t), t, step)
    requires Shaped(cfg, DoGroup(s, t, step))
    ensures FlightOk(cfg, DoGroup(s, t, step), s.threads[t].node)
  {
    var f, fa := Flight(s, t), FlightAction(s.threads[t], t, step);
    var f' := SF.Do(f, fa);
    SF.InvStep(f, fa);
    GroupStepFrame(f, fa);
    forall c: nat | c < |f'.calls| && f'.calls[c].result.Some?
      ensures Truthful(cfg, f'.calls[c].key, f'.calls[c].result.value)
    {
      GroupStepResults(f, fa, c);
    }
  }

  /** Only a step outside the flight groups touches a cache, and only that of its node. */
  lemma CachesFramed(cfg: Config, s: State, a: Action, n: string)
    requires ValidConfig(cfg) && Shaped(cfg, s) && Enabled(cfg, s, a) && n in s.caches
    ensures n in Do(cfg, s, a).caches
    ensures a.Arrive? || a.Group? || s.threads[a.t].node != n ==> Do(cfg, s, a).caches[n] == s.caches[n]
    ensures !a.Arrive? && !a.Group? && s.threads[a.t].node == n ==>
              Do(cfg, s, a).caches[n] == PlainEffect(cfg, s, a).cache
  {
    hide PlainEffect, GroupEnabled, SF.Do;
  }

  lemma CacheStep(cfg: Config, s: State, a: Action, n: string)
    requires ValidConfig(cfg) && Inv(cfg, s) && Enabled(cfg, s, a) && n in cfg.nodes
    ensures Shaped(cfg, Do(cfg, s, a)) && CacheOk(cfg, Do(cfg, s, a), n)
  {
    hide FlightOk, PlainEffect, Do, GroupEnabled;
    StepFramed(cfg, s, a);
    CachesFramed(cfg, s, a, n);
    assert CacheOk(cfg, s, n);
    if !a.Arrive? && !a.Group? && s.threads[a.t].node == n {
      assert ThreadOk(cfg, s, a.t);
      EffectCache(cfg, s, a);
    }
  }

  lemma EffectCache(cfg: Config, s: State, a: Action)
    requires ValidConfig(cfg) && Shaped(cfg, s) && Enabled(cfg, s, a) && !a.Arrive? && !a.Group?
    requires ThreadOk(cfg, s, a.t) && CacheOk(cfg, s, s.threads[a.t].node)
    ensures DistinctKeys(PlainEffect(cfg, s, a).cache)
    ensures forall e :: e in PlainEffect(cfg, s, a).cache ==> cfg.source(e.key) == Some(e.value)
  {
    var n, key := s.threads[a.t].node, s.threads[a.t].key;
    if a.LookUp? {
      TouchKeepsMembers(s.caches[n], key);
    } else if a.Store? {
      AddKeepsMembers(cfg.nodes[n].cacheBytes, s.caches[n], key, s.threads[a.t].pc.load.value);
    }
  }

  lemma TouchKeepsMembers(c: Recency, key: string)
    requires DistinctKeys(c)
    ensures DistinctKeys(TouchIn(c, key))
    ensures forall e :: e in TouchIn(c, key) ==> e in c
  {
    TouchKeepsTotal(c, key);
    if Find(c, key).Some? {
      UpdatedDistinct(c, key, Find(c, key).value);
    }
  }

  lemma AddKeepsMembers(budget: nat, c: Recency, key: string, value: Bytes)
    requires DistinctKeys(c)
    ensures DistinctKeys(AddTo(budget, c, key, value))
    ensures forall e :: e in AddTo(budget, c, key, value) ==> e == Entry(key, value) || e in c
  {
    UpdatedDistinct(c, key, value);
    WithoutKeys(c, key);
    var u := Updated(c, key, value);
    assert forall e :: e in Evict(budget, u) ==> e in u;
  }

  /** What ThreadOk says of the Get's place in its flight group stays true if the place does. */
  lemma ThreadOkFramed(cfg: Config, s: State, s': State, t: int, u: Tid)
    requires ValidConfig(cfg) && Shaped(cfg, s) && Shaped(cfg, s') && u < |s.threads| && u < |s'.threads|
    requires ThreadOk(cfg, s, u) && ThreadsFramed(s.threads, s'.threads, t) && s'.threads[u] == s.threads[u]
    requires var f, f' := Flight(s, u), Flight(s', u);
             f'.At(u) == f.At(u) && |f.calls| <= |f'.calls|
             && forall c :: 0 <= c < |f.calls| ==> f'.calls[c].key == f.calls[c].key
    ensures ThreadOk(cfg, s', u)
  {
    hide LoadOk, ThreadsFramed;
    LoadOkFramed(cfg, s.threads, s'.threads, t, s.threads[u]);
  }

  lemma OtherThreadStep(cfg: Config, s: State, a: Action, u: Tid)
    requires ValidConfig(cfg) && Inv(cfg, s) && Enabled(cfg, s, a)
    requires u < |s.threads| && u != Actor(a)
    ensures Shaped(cfg, Do(cfg, s, a)) && u < |Do(cfg, s, a).threads| && ThreadOk(cfg, Do(cfg, s, a), u)
  {
    hide PlainEffect, FlightOk, CacheOk, ThreadOk;
    StepFramed(cfg, s, a);
    if a.Group? && s.threads[a.t].node == s.threads[u].node {
      GroupStepFrame(Flight(s, a.t), FlightAction(s.threads[a.t], a.t, a.step));
    } else {
      FlightsFramed(cfg, s, a, s.threads[u].node);
    }
    ThreadOkFramed(cfg, s, Do(cfg, s, a), Actor(a), u);
  }

  lemma LoadOkFramed(cfg: Config, a: seq<Thread>, b: seq<Thread>, t: int, th: Thread)
    requires ValidConfig(cfg) && th.node in cfg.nodes
    requires ThreadsFramed(a, b, t) && LoadOk(cfg, a, th)
    ensures LoadOk(cfg, b, th)
  {
    if th.pc.InDo? && th.pc.load.Awaiting? && th.pc.load.child.Some? {
      assert SameGet(a[th.pc.load.child.value], b[th.pc.load.child.value]);
    }
  }

  lemma NewThreadOk(cfg: Config, s: State, s': State, u: Tid)
    requires ValidConfig(cfg) && Shaped(cfg, s) && Shaped(cfg, s') && |s.threads| <= u < |s'.threads|
    requires s'.flights == s.flights && s'.threads[u].pc.Start? && FlightOk(cfg, s, s'.threads[u].node)
    ensures ThreadOk(cfg, s', u)
  {
    hide SF.Inv;
  }

  lemma GroupStepSize(cfg: Config, s: State, a: Action)
    requires ValidConfig(cfg) && Shaped(cfg, s) && Enabled(cfg, s, a) && a.Group?
    ensures |Do(cfg, s, a).threads| == |s.threads|
  {
  }

  lemma NewThreadStep(cfg: Config, s: State, a: Action, u: Tid)
    requires ValidConfig(cfg) && Inv(cfg, s) && Enabled(cfg, s, a)
    requires |s.threads| <= u < |Do(cfg, s, a).threads|
    ensures Shaped(cfg, Do(cfg, s, a)) && ThreadOk(cfg, Do(cfg, s, a), u)
  {
    hide Do, Enabled, FlightOk, ThreadOk, CacheOk;
    StepFramed(cfg, s, a);
    if a.Group? {
      GroupStepSize(cfg, s, a);
    } else {
      NewThreadOk(cfg, s, Do(cfg, s, a), u);
    }
  }

  lemma OwnGroupStep(cfg: Config, s: State, a: Action)
    requires ValidConfig(cfg) && Inv(cfg, s) && Enabled(cfg, s, a) && a.Group?
    ensures Shaped(cfg, Do(cfg, s, a)) && ThreadOk(cfg, Do(cfg, s, a), a.t)
  {
    StepFramed(cfg, s, a);
    assert ThreadOk(cfg, s, a.t);
    var n, key := s.threads[a.t].node, s.threads[a.t].key;
    assert FlightOk(cfg, s, n);
    assert SF.PcOk(s.flights[n], a.t);
    GroupStepFrame(s.flights[n], FlightAction(s.threads[a.t], a.t, a.step));
    if a.step.EnterDo? && key in s.flights[n].m {
      assert SF.EntryOk(s.flights[n], key);
    }
  }

  lemma OwnPlainStep(cfg: Config, s: State, a: Action)
    requires ValidConfig(cfg) && Inv(cfg, s) && Enabled(cfg, s, a) && !a.Group? && !a.Arrive?
    ensures Shaped(cfg, Do(cfg, s, a)) && ThreadOk(cfg, Do(cfg, s, a), a.t)
  {
    hide PlainEffect, CacheOk, FlightOk, LoadOk;
    StepFramed(cfg, s, a);
    InvAt(cfg, s, a.t);
    PlainStepOk(cfg, s, a);
  }

  lemma PlainStepOk(cfg: Config, s: State, a: Action)
    requires ValidConfig(cfg) && Inv(cfg, s) && Enabled(cfg, s, a) && !a.Group? && !a.Arrive?
    ensures GoodEffect(cfg, s, a.t, PlainEffect(cfg, s, a))
  {
    hide PlainEffect, CacheOk, FlightOk, ThreadOk, GoodEffect;
    InvAt(cfg, s, a.t);
    if a.LookUp? {
      LookUpOk(cfg, s, a);
    } else if a.PeerReply? {
      InvAt(cfg, s, s.threads[a.t].pc.load.child.value);
      PeerReplyOk(cfg, s, a);
    } else if a.Pick? {
      PickOk(cfg, s, a);
    } else {
      LoadingOk(cfg, s, a);
    }
  }

  ghost predicate GoodEffect(cfg: Config, s: State, t: Tid, e: Effect)
    requires ValidConfig(cfg) && Shaped(cfg, s) && t < |s.threads|
  {
    && LoadOk(cfg, Apply(s, t, e).threads, s.threads[t].(pc := e.pc))
    && (e.pc.InDo? <==> s.threads[t].pc.InDo?)
    && (e.pc.InDo? ==> !e.pc.load.NotLoading?)
  }

  lemma LookUpOk(cfg: Config, s: State, a: Action)
    requires ValidConfig(cfg) && Shaped(cfg, s) && Enabled(cfg, s, a) && a.LookUp?
    requires CacheOk(cfg, s, s.threads[a.t].node)
    ensures GoodEffect(cfg, s, a.t, PlainEffect(cfg, s, a))
  {
    var th := s.threads[a.t];
    if Find(s.caches[th.node], th.key).Some? {
      FindMember(s.caches[th.node], th.key);
    }
  }

  lemma PeerReplyOk(cfg: Config, s: State, a: Action)
    requires ValidConfig(cfg) && Shaped(cfg, s) && Enabled(cfg, s, a) && a.PeerReply?
    requires ThreadOk(cfg, s, a.t) && ThreadOk(cfg, s, s.threads[a.t].pc.load.child.value)
    ensures GoodEffect(cfg, s, a.t, PlainEffect(cfg, s, a))
  {
  }

  lemma PickOk(cfg: Config, s: State, a: Action)
    requires ValidConfig(cfg) && Shaped(cfg, s) && Enabled(cfg, s, a) && a.Pick?
    ensures GoodEffect(cfg, s, a.t, PlainEffect(cfg, s, a))
  {
  }

  lemma LoadingOk(cfg: Config, s: State, a: Action)
    requires ValidConfig(cfg) && Shaped(cfg, s) && Enabled(cfg, s, a)
    requires a.PeerError? || a.CallGetter? || a.GetterReturn? || a.Store?
    requires ThreadOk(cfg, s, a.t)
    ensures GoodEffect(cfg, s, a.t, PlainEffect(cfg, s, a))
  {
  }

  lemma InvStep(cfg: Config, s: State, a: Action)
    requires ValidConfig(cfg) && Inv(cfg, s) && Enabled(cfg, s, a)
    ensures Inv(cfg, Do(cfg, s, a))
  {
    var s' := Do(cfg, s, a);
    StepFramed(cfg, s, a);
    forall n | n in cfg.nodes ensures FlightOk(cfg, s', n) && CacheOk(cfg, s', n) {
      FlightStep(cfg, s, a, n);
      CacheStep(cfg, s, a, n);
    }
    forall u | 0 <= u < |s'.threads| ensures ThreadOk(cfg, s', u) {
      if u >= |s.threads| {
        NewThreadStep(cfg, s, a, u);
      } else if u != Actor(a) {
        OtherThreadStep(cfg, s, a, u);
      } else if a.Group? {
        OwnGroupStep(cfg, s, a);
      } else {
        OwnPlainStep(cfg, s, a);
      }
    }
  }

  // ---------------------------------------------------------------- runs

  datatype Run = Run(states: seq<State>, actions: seq<Action>)

  /** An interleaving of all nodes from the idle cluster. */
  ghost predicate IsRun(cfg: Config, r: Run)
    requires ValidConfig(cfg)
  {
    && |r.states| == |r.actions| + 1
    && r.states[0] == Init(cfg)
    && (forall i :: 0 <= i < |r.actions| ==>
          Shaped(cfg, r.states[i]) && Enabled(cfg, r.states[i], r.actions[i])
          && r.states[i + 1] == Do(cfg, r.states[i], r.actions[i]))
  }

  lemma RunStep(cfg: Config, r: Run, i: nat)
    requires ValidConfig(cfg) && IsRun(cfg, r) && i < |r.states|
    ensures |r.states| == |r.actions| + 1 && (i == 0 ==> r.states[0] == Init(cfg))
    ensures i > 0 ==>
              && Shaped(cfg, r.states[i - 1]) && Enabled(cfg, r.states[i - 1], r.actions[i - 1])
              && r.states[i] == Do(cfg, r.states[i - 1], r.actions[i - 1])
  {
  }

  lemma {:induction false} InvInEveryRun(cfg: Config, r: Run, i: nat)
    requires ValidConfig(cfg) && IsRun(cfg, r) && i < |r.states|
    ensures Inv(cfg, r.states[i])
  {
    hide Inv, Do, Enabled, IsRun;
    RunStep(cfg, r, i);
    if i == 0 {
      InitInv(cfg);
    } else {
      InvInEveryRun(cfg, r, i - 1);
      InvStep(cfg, r.states[i - 1], r.actions[i - 1]);
    }
  }

  // ---------------------------------------------------------------- agreement with the source

  /** Whatever a Get returns without error, and whatever any node caches, is the source's value. Any
      rings, any failures, any interleaving. */
  lemma ReadsAgreeWithSource(cfg: Config, r: Run, i: nat)
    requires ValidConfig(cfg) && IsRun(cfg, r) && i < |r.states|
    ensures forall t :: 0 <= t < |r.states[i].threads| && r.states[i].threads[t].pc.Finished? ==>
              var th := r.states[i].threads[t];
              th.pc.reply.Ok? ==> cfg.source(th.key) == Some(th.pc.reply.value)
    ensures forall n, e :: n in r.states[i].caches && e in r.states[i].caches[n] ==>
              cfg.source(e.key) == Some(e.value)
  {
    InvInEveryRun(cfg, r, i);
    var s := r.states[i];
    forall t | 0 <= t < |s.threads| && s.threads[t].pc.Finished?
      ensures var th := s.threads[t]; th.pc.reply.Ok? ==> cfg.source(th.key) == Some(th.pc.reply.value)
    {
      assert ThreadOk(cfg, s, t);
    }
    forall n, e | n in s.caches && e in s.caches[n] ensures cfg.source(e.key) == Some(e.value) {
      assert CacheOk(cfg, s, n);
    }
  }

  // ---------------------------------------------------------------- one getter call at a time

  /** t is inside a call of the getter. */
  predicate CallsGetter(s: State, t: Tid)
    requires t < |s.threads|
  {
    s.threads[t].pc == InDo(InGetter)
  }

  lemma OneGetterPerNode(cfg: Config, s: State, t: Tid, u: Tid)
    requires ValidConfig(cfg) && Inv(cfg, s) && t < |s.threads| && u < |s.threads|
    requires CallsGetter(s, t) && CallsGetter(s, u)
    requires s.threads[t].node == s.threads[u].node && s.threads[t].key == s.threads[u].key
    ensures t == u
  {
    hide Inv, CacheOk, LoadOk;
    InvAt(cfg, s, t);
    InvAt(cfg, s, u);
    var f := s.flights[s.threads[t].node];
    assert SF.PcOk(f, t) && SF.PcOk(f, u);
  }
}
