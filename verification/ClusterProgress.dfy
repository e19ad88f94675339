/** No deadlock across nodes, and a bound on the work of every Get, when all nodes share a ring. */
module ClusterProgress {
  import opened Common
  import opened Cluster
  import opened ClusterLoading
  import LruSpec
  import SF = Singleflight
  import Peers

  // ---------------------------------------------------------------- who waits for whom

  /** t cannot go on before u does: it awaits u's reply, or joined a flight that u leads. */
  ghost predicate WaitsFor(s: State, t: Tid, u: Tid) {
    && t < |s.threads| && u < |s.threads| && s.threads[t].node in s.flights
    && var at := Flight(s, t).At(t);
       if at.Waiting? then
         && at.call < |Flight(s, t).calls|
         && !Flight(s, t).calls[at.call].done && Flight(s, t).calls[at.call].leader == u
       else
         && Loads(s, t) && s.threads[t].pc.load.Awaiting?
         && s.threads[t].pc.load.child == Some(u) && !s.threads[u].pc.Finished?
  }

  /** Bounds the length of a chain of waits: joiner, leader, peer's joiner, peer's leader. */
  ghost function Rank(owner: string -> string, s: State, t: Tid): nat {
    if t >= |s.threads| || s.threads[t].node !in s.flights then 0
    else
      var waiting := Flight(s, t).At(t).Waiting?;
      if s.threads[t].node == owner(s.threads[t].key) then (if waiting then 2 else 1)
      else (if waiting then 4 else 3)
  }

  /** The leader of the flight a Get waits in is on the same node, and is not waiting itself. */
  lemma LeaderOfFlight(cfg: Config, s: State, t: Tid)
    requires InvHolds(cfg, s) && t < |s.threads| && s.threads[t].node in s.flights
    requires Flight(s, t).At(t).Waiting? && Flight(s, t).At(t).call < |Flight(s, t).calls|
    requires !Flight(s, t).calls[Flight(s, t).At(t).call].done
    ensures var u := Flight(s, t).calls[Flight(s, t).At(t).call].leader;
            && u < |s.threads| && s.threads[u].node == s.threads[t].node && s.threads[u].key == s.threads[t].key
            && SF.Leading(Flight(s, t).At(u)) && s.threads[u].pc.InDo?
  {
    hide Inv, CacheOk, LoadOk;
    InvAt(cfg, s, t);
    var f := Flight(s, t);
    assert SF.CallOk(f, f.At(t).call);
    InvAt(cfg, s, f.calls[f.At(t).call].leader);
  }

  lemma WaitLowersRank(cfg: Config, owner: string -> string, s: State, t: Tid, u: Tid)
    requires Agreed(cfg, owner) && InvHolds(cfg, s) && PeersOnOwner(owner, s) && WaitsFor(s, t, u)
    ensures Rank(owner, s, u) < Rank(owner, s, t)
  {
    hide Inv, CacheOk, FlightOk, Peers.Pick;
    InvAt(cfg, s, t);
    var th := s.threads[t];
    if Flight(s, t).At(t).Waiting? {
      LeaderOfFlight(cfg, s, t);
    } else {
      assert AgreedAt(cfg, owner, th.node, th.key);
    }
  }

  /** A chain of waits. */
  ghost predicate WaitChain(s: State, p: seq<Tid>) {
    |p| >= 2 && forall i :: 0 <= i < |p| - 1 ==> WaitsFor(s, p[i], p[i + 1])
  }

  lemma {:induction false} ChainLowersRank(cfg: Config, owner: string -> string, s: State, p: seq<Tid>)
    requires Agreed(cfg, owner) && InvHolds(cfg, s) && PeersOnOwner(owner, s) && WaitChain(s, p)
    ensures Rank(owner, s, p[|p| - 1]) + |p| - 1 <= Rank(owner, s, p[0])
    decreases |p|
  {
    hide Agreed, InvHolds, PeersOnOwner, WaitsFor, Rank;
    var q := p[..|p| - 1];
    WaitLowersRank(cfg, owner, s, p[|p| - 2], p[|p| - 1]);
    if |q| >= 2 {
      assert WaitChain(s, q);
      ChainLowersRank(cfg, owner, s, q);
    }
  }

  /** Waiting across all nodes never closes a cycle, and no chain of waits passes more than four Gets. */
  lemma NoWaitCycle(cfg: Config, peers: set<string>, r: Run, i: nat, p: seq<Tid>)
    requires SharedRing(cfg, peers) && ValidConfig(cfg) && IsRun(cfg, r) && i < |r.states|
    requires WaitChain(r.states[i], p)
    ensures p[0] != p[|p| - 1] && |p| <= 4
  {
    hide SharedRing, Agreed, Inv, IsRun, WaitsFor, Rank, PeersOnOwner, ValidConfig;
    var owner := OwnerOf(cfg, peers);
    InvInEveryRun(cfg, r, i);
    PeersOnOwnerInEveryRun(cfg, owner, r, i);
    ChainLowersRank(cfg, owner, r.states[i], p);
    LastRankPositive(cfg, owner, r.states[i], p);
    RankBounded(owner, r.states[i], p[0]);
  }

  lemma RankBounded(owner: string -> string, s: State, t: Tid)
    ensures Rank(owner, s, t) <= 4
  {
  }

  lemma LastRankPositive(cfg: Config, owner: string -> string, s: State, p: seq<Tid>)
    requires InvHolds(cfg, s) && WaitChain(s, p)
    ensures Rank(owner, s, p[|p| - 1]) > 0
  {
    assert WaitsFor(s, p[|p| - 2], p[|p| - 1]);
  }

  // ---------------------------------------------------------------- some step is always possible

  /** Neither a new client nor a transport failure on the way to a running node. A request to a peer
      that is not running fails of itself. */
  predicate Internal(s: State, a: Action) {
    && !a.Arrive?
    && (a.PeerError? ==> a.t < |s.threads| && s.threads[a.t].pc == InDo(Awaiting(None)))
  }

  /** The step that the Get itself can take, when it waits for nobody. */
  ghost function OwnStep(s: State, t: Tid): Action
    requires t < |s.threads| && s.threads[t].node in s.flights
  {
    var pc, at := s.threads[t].pc, Flight(s, t).At(t);
    if pc.Start? then LookUp(t)
    else if pc.Missed? then Group(t, EnterDo)
    else match at
      case Waiting(_) => Group(t, Wake)
      case Assigned(_) => Group(t, Signal)
      case Signalled(_) => Group(t, Delete)
      case Returned(_, _) => Group(t, Exit)
      case Outside => LookUp(t)
      case InFn(_) =>
        if !pc.InDo? then LookUp(t)
        else match pc.load
          case NotLoading => LookUp(t)
          case Picking => Pick(t)
          case Awaiting(child) => if child.None? then PeerError(t) else PeerReply(t)
          case AtGetter => CallGetter(t)
          case InGetter => GetterReturn(t, false)
          case Storing(_) => Store(t)
          case FnDone(_) => Group(t, AssignResult)
  }

  /** What keeps an unfinished Get from its own step is another Get it waits for. */
  lemma StepOrWait(cfg: Config, owner: string -> string, s: State, t: Tid)
    requires Agreed(cfg, owner) && InvHolds(cfg, s)
    requires t < |s.threads| && !s.threads[t].pc.Finished?
    ensures (Enabled(cfg, s, OwnStep(s, t)) && Internal(s, OwnStep(s, t)))
         || (exists u: Tid :: WaitsFor(s, t, u) && !s.threads[u].pc.Finished?)
  {
    hide Inv, SF.Inv, LoadOk, CacheOk, WaitsFor, Agreed;
    InvAt(cfg, s, t);
    var f := Flight(s, t);
    InvPc(f, t);
    if f.At(t).Waiting? {
      WaitingStepOrWait(cfg, s, t);
    } else if f.At(t).InFn? {
      LoadingStepOrWait(cfg, owner, s, t);
    } else {
      GroupCanStep(cfg, s, t);
    }
  }

  /** Outside fn and not waiting, a Get can always go on. */
  lemma GroupCanStep(cfg: Config, s: State, t: Tid)
    requires ValidConfig(cfg) && Shaped(cfg, s) && t < |s.threads| && ThreadOk(cfg, s, t) && SF.PcOk(Flight(s, t), t)
    requires !s.threads[t].pc.Finished? && !Flight(s, t).At(t).Waiting? && !Flight(s, t).At(t).InFn?
    ensures Enabled(cfg, s, OwnStep(s, t)) && Internal(s, OwnStep(s, t))
  {
    hide LoadOk;
  }

  lemma InvPc(f: SF.State<Reply>, t: Tid)
    requires SF.Inv(f)
    ensures SF.PcOk(f, t)
  {
  }

  lemma WaitingStepOrWait(cfg: Config, s: State, t: Tid)
    requires InvHolds(cfg, s) && t < |s.threads| && Flight(s, t).At(t).Waiting?
    ensures (Enabled(cfg, s, Group(t, Wake)) && s.threads[t].pc.InDo?)
         || (exists u: Tid :: WaitsFor(s, t, u) && !s.threads[u].pc.Finished?)
  {
    hide Inv, CacheOk, LoadOk, FlightOk;
    InvAt(cfg, s, t);
    var f := Flight(s, t);
    if !f.calls[f.At(t).call].done {
      LeaderOfFlight(cfg, s, t);
      assert WaitsFor(s, t, f.calls[f.At(t).call].leader);
    }
  }

  lemma LoadingStepOrWait(cfg: Config, owner: string -> string, s: State, t: Tid)
    requires Agreed(cfg, owner) && InvHolds(cfg, s) && t < |s.threads| && Flight(s, t).At(t).InFn?
    ensures (Enabled(cfg, s, OwnStep(s, t)) && Internal(s, OwnStep(s, t)))
         || (exists u: Tid :: WaitsFor(s, t, u) && !s.threads[u].pc.Finished?)
  {
    hide Peers.Pick, SF.Inv;
    var th := s.threads[t];
    assert ThreadOk(cfg, s, t) && FlightOk(cfg, s, th.node);
    if th.pc.load.Awaiting? {
      AwaitingStepOrWait(cfg, owner, s, t);
    } else {
      InvPc(Flight(s, t), t);
    }
  }

  lemma AwaitingStepOrWait(cfg: Config, owner: string -> string, s: State, t: Tid)
    requires Agreed(cfg, owner) && Shaped(cfg, s) && t < |s.threads| && ThreadOk(cfg, s, t)
    requires Loads(s, t) && s.threads[t].pc.load.Awaiting?
    ensures (Enabled(cfg, s, OwnStep(s, t)) && Internal(s, OwnStep(s, t)))
         || (exists u: Tid :: WaitsFor(s, t, u) && !s.threads[u].pc.Finished?)
  {
    hide Peers.Pick;
    var th := s.threads[t];
    if th.pc.load.child.Some? {
      var u := th.pc.load.child.value;
      assert s.threads[u].pc.Finished? || WaitsFor(s, t, u);
    }
  }

  /** Following the waits from any unfinished Get ends at one that can step. */
  lemma {:induction false} FindStep(cfg: Config, owner: string -> string, s: State, t: Tid) returns (a: Action)
    requires Agreed(cfg, owner) && InvHolds(cfg, s) && PeersOnOwner(owner, s)
    requires t < |s.threads| && !s.threads[t].pc.Finished?
    ensures Enabled(cfg, s, a) && Internal(s, a)
    decreases Rank(owner, s, t)
  {
    StepOrWait(cfg, owner, s, t);
    if Enabled(cfg, s, OwnStep(s, t)) && Internal(s, OwnStep(s, t)) {
      a := OwnStep(s, t);
    } else {
      var u: Tid :| WaitsFor(s, t, u) && !s.threads[u].pc.Finished?;
      WaitLowersRank(cfg, owner, s, t, u);
      a := FindStep(cfg, owner, s, u);
    }
  }

  /** No reachable state with an unfinished Get is stuck. */
  lemma NeverStuck(cfg: Config, peers: set<string>, r: Run, i: nat, t: Tid) returns (a: Action)
    requires SharedRing(cfg, peers) && ValidConfig(cfg) && IsRun(cfg, r) && i < |r.states|
    requires t < |r.states[i].threads| && !r.states[i].threads[t].pc.Finished?
    ensures Shaped(cfg, r.states[i]) && Enabled(cfg, r.states[i], a) && Internal(r.states[i], a)
  {
    var owner := OwnerOf(cfg, peers);
    InvInEveryRun(cfg, r, i);
    PeersOnOwnerInEveryRun(cfg, owner, r, i);
    a := FindStep(cfg, owner, r.states[i], t);
  }

  // ---------------------------------------------------------------- the measure

  function LoadWeight(load: Loading, local: bool): nat {
    match load
    case NotLoading => 0
    case Picking => if local then 8 else 19
    case Awaiting(_) => 8
    case AtGetter => 7
    case InGetter => 6
    case Storing(_) => 5
    case FnDone(_) => 4
  }

  /** Steps a Get can still take, including those of the peer Get it may start. */
  function PcWeight(pc: Pc, at: SF.Pc<Reply>, local: bool): nat {
    match pc
    case Finished(_) => 0
    case Start => if local then 10 else 21
    case Missed => if local then 9 else 20
    case InDo(load) =>
      match at
      case Outside => 0
      case Returned(_, _) => 1
      case Waiting(_) => 2
      case Signalled(_) => 2
      case Assigned(_) => 3
      case InFn(_) => LoadWeight(load, local)
  }

  ghost function Weight(owner: string -> string, s: State, t: Tid): nat
    requires t < |s.threads|
  {
    var th := s.threads[t];
    if th.node !in s.flights then 0
    else PcWeight(th.pc, Flight(s, t).At(t), th.node == owner(th.key))
  }

  ghost function SumTo(owner: string -> string, s: State, n: nat): nat
    requires n <= |s.threads|
  {
    if n == 0 then 0 else SumTo(owner, s, n - 1) + Weight(owner, s, n - 1)
  }

  ghost function Measure(owner: string -> string, s: State): nat {
    SumTo(owner, s, |s.threads|)
  }

  lemma {:induction false} SumWithOneChange(owner: string -> string, s: State, s': State, n: nat, t: int)
    requires n <= |s.threads| && n <= |s'.threads|
    requires forall u: Tid :: u < n && u != t ==> Weight(owner, s, u) == Weight(owner, s', u)
    ensures SumTo(owner, s', n) + (if 0 <= t < n then Weight(owner, s, t) else 0)
         == SumTo(owner, s, n) + (if 0 <= t < n then Weight(owner, s', t) else 0)
  {
    if n > 0 {
      SumWithOneChange(owner, s, s', n - 1, t);
    }
  }

  /** The weight of a Get depends on the Get and on its place in the flight group. */
  lemma SameWeight(owner: string -> string, s: State, s': State, u: Tid)
    requires u < |s.threads| && u < |s'.threads| && s'.threads[u] == s.threads[u]
    requires s.threads[u].node in s.flights && s.threads[u].node in s'.flights
    requires Flight(s', u).At(u) == Flight(s, u).At(u)
    ensures Weight(owner, s', u) == Weight(owner, s, u)
  {
    hide PcWeight;
  }

  lemma OthersKeepWeight(cfg: Config, owner: string -> string, s: State, a: Action, u: Tid)
    requires InvHolds(cfg, s) && Enabled(cfg, s, a) && u < |s.threads| && u != Actor(a)
    ensures u < |Do(cfg, s, a).threads| && Weight(owner, Do(cfg, s, a), u) == Weight(owner, s, u)
  {
    hide PlainEffect, Weight, Inv;
    InvShaped(cfg, s);
    StepFramed(cfg, s, a);
    if a.Group? && s.threads[a.t].node == s.threads[u].node {
      GroupStepFrame(Flight(s, a.t), FlightAction(s.threads[a.t], a.t, a.step));
    } else {
      FlightsFramed(cfg, s, a, s.threads[u].node);
    }
    SameWeight(owner, s, Do(cfg, s, a), u);
  }

  /** The acting Get after a step of its flight group. */
  lemma GroupPcLowers(f: SF.State<Reply>, th: Thread, t: Tid, step: GroupStep, local: bool)
    requires GroupEnabled(th, f, t, step)
    requires (th.pc.InDo? <==> !f.At(t).Outside?) && (th.pc.InDo? && f.At(t).InFn? ==> !th.pc.load.NotLoading?)
    ensures var f' := SF.Do(f, FlightAction(th, t, step));
            PcWeight(PcAfterGroup(f, f', t, step), f'.At(t), local) < PcWeight(th.pc, f.At(t), local)
  {
    match step
    case EnterDo =>
    case AssignResult =>
    case Signal =>
    case Delete =>
    case Wake =>
    case Exit =>
  }

  lemma GroupStepLowers(cfg: Config, owner: string -> string, s: State, a: Action)
    requires InvHolds(cfg, s) && Enabled(cfg, s, a) && a.Group?
    ensures a.t < |Do(cfg, s, a).threads| && Weight(owner, Do(cfg, s, a), a.t) < Weight(owner, s, a.t)
  {
    assert ThreadOk(cfg, s, a.t);
    hide Inv, LoadOk, PcWeight, PcAfterGroup, GroupEnabled, SF.Do;
    var th := s.threads[a.t];
    GroupPcLowers(Flight(s, a.t), th, a.t, a.step, th.node == owner(th.key));
  }

  lemma PickLowers(cfg: Config, owner: string -> string, s: State, a: Action)
    requires Agreed(cfg, owner) && Shaped(cfg, s) && Enabled(cfg, s, a) && a.Pick?
    ensures var s' := Do(cfg, s, a);
            && |s.threads| <= |s'.threads| <= |s.threads| + 1
            && Weight(owner, s', a.t) + (if |s'.threads| > |s.threads| then Weight(owner, s', |s.threads|) else 0)
             < Weight(owner, s, a.t)
  {
    hide Peers.Pick;
    assert AgreedAt(cfg, owner, s.threads[a.t].node, s.threads[a.t].key);
  }

  /** A step outside the flight group that starts no other Get. */
  lemma EffectLowers(cfg: Config, s: State, a: Action, local: bool)
    requires ValidConfig(cfg) && Shaped(cfg, s) && Enabled(cfg, s, a) && !a.Group? && !a.Arrive? && !a.Pick?
    ensures PlainEffect(cfg, s, a).started == []
    ensures var th := s.threads[a.t];
            PcWeight(PlainEffect(cfg, s, a).pc, Flight(s, a.t).At(a.t), local) < PcWeight(th.pc, Flight(s, a.t).At(a.t), local)
  {
    hide PickEffect, LruSpec.Find, LruSpec.TouchIn, LruSpec.AddTo, SF.Enabled;
  }

  lemma LoadStepLowers(cfg: Config, owner: string -> string, s: State, a: Action)
    requires ValidConfig(cfg) && Shaped(cfg, s) && Enabled(cfg, s, a) && !a.Group? && !a.Arrive? && !a.Pick?
    ensures var s' := Do(cfg, s, a);
            && |s'.threads| == |s.threads|
            && Weight(owner, s', a.t) < Weight(owner, s, a.t)
  {
    hide PlainEffect, PcWeight;
    EffectLowers(cfg, s, a, s.threads[a.t].node == owner(s.threads[a.t].key));
  }

  /** Every step but a client's arrival lowers the measure; an arrival adds at most 21. */
  lemma StepLowersMeasure(cfg: Config, owner: string -> string, s: State, a: Action)
    requires Agreed(cfg, owner) && InvHolds(cfg, s) && Enabled(cfg, s, a)
    ensures if a.Arrive? then Measure(owner, Do(cfg, s, a)) <= Measure(owner, s) + 21
            else Measure(owner, Do(cfg, s, a)) < Measure(owner, s)
  {
    hide Weight, PlainEffect, DoGroup;
    var s', n := Do(cfg, s, a), |s.threads|;
    StepFramed(cfg, s, a);
    forall u: Tid | u < n && u != Actor(a) ensures Weight(owner, s, u) == Weight(owner, s', u) {
      OthersKeepWeight(cfg, owner, s, a, u);
    }
    SumWithOneChange(owner, s, s', n, Actor(a));
    if a.Arrive? {
      StartWeight(owner, s', n);
    } else if a.Group? {
      GroupStepLowers(cfg, owner, s, a);
      GroupStepSize(cfg, s, a);
    } else if a.Pick? {
      PickLowers(cfg, owner, s, a);
    } else {
      LoadStepLowers(cfg, owner, s, a);
    }
  }

  lemma StartWeight(owner: string -> string, s: State, t: Tid)
    requires t < |s.threads| && s.threads[t].pc.Start?
    ensures Weight(owner, s, t) <= 21
  {
  }

  function Arrivals(actions: seq<Action>): nat {
    if actions == [] then 0
    else Arrivals(actions[..|actions| - 1]) + (if actions[|actions| - 1].Arrive? then 1 else 0)
  }

  lemma EmptyMeasure(cfg: Config, owner: string -> string)
    ensures Measure(owner, Init(cfg)) == 0
  {
  }

  lemma {:induction false} WorkBoundedTo(cfg: Config, owner: string -> string, r: Run, i: nat)
    requires ValidConfig(cfg) && Agreed(cfg, owner) && IsRun(cfg, r) && i < |r.states|
    ensures i - Arrivals(r.actions[..i]) + Measure(owner, r.states[i]) <= 21 * Arrivals(r.actions[..i])
  {
    hide Inv, Measure, Do, Enabled, Agreed, IsRun, ValidConfig;
    RunStep(cfg, r, i);
    if i == 0 {
      EmptyMeasure(cfg, owner);
    } else {
      WorkBoundedTo(cfg, owner, r, i - 1);
      InvInEveryRun(cfg, r, i - 1);
      StepLowersMeasure(cfg, owner, r.states[i - 1], r.actions[i - 1]);
      assert r.actions[..i][..i - 1] == r.actions[..i - 1];
    }
  }

  lemma RunLength(cfg: Config, r: Run)
    requires ValidConfig(cfg) && IsRun(cfg, r)
    ensures |r.states| == |r.actions| + 1
  {
  }

  /** In every run, the steps taken for n client Gets, forwarded ones included, number at most 21 n;
      so once clients stop arriving, running on ends, and it ends with every Get finished. */
  lemma EveryGetFinishes(cfg: Config, peers: set<string>, r: Run)
    requires SharedRing(cfg, peers) && ValidConfig(cfg) && IsRun(cfg, r)
    ensures |r.actions| - Arrivals(r.actions) <= 21 * Arrivals(r.actions)
    ensures var s := r.states[|r.actions|];
            Shaped(cfg, s) &&
            ((forall a :: Enabled(cfg, s, a) ==> !Internal(s, a)) ==>
               forall t :: 0 <= t < |s.threads| ==> s.threads[t].pc.Finished?)
  {
    hide SharedRing, Agreed, IsRun, Enabled, Measure;
    var owner, n := OwnerOf(cfg, peers), |r.actions|;
    RunLength(cfg, r);
    WorkBoundedTo(cfg, owner, r, n);
    assert r.actions[..n] == r.actions;
    InvInEveryRun(cfg, r, n);
    var s := r.states[n];
    if t :| 0 <= t < |s.threads| && !s.threads[t].pc.Finished? {
      var a := NeverStuck(cfg, peers, r, n, t);
    }
  }
}
