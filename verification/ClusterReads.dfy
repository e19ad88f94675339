/** What Gets on the cluster answer and cache: a Get fails only if the local getter did, whatever the peers
    do, and every node's cache is decided by its own stores and hits. */
module ClusterReads {
  import opened Common
  import opened LruSpec
  import opened Cluster
  import ClusterLoading
  import SF = Singleflight
  import ReadThrough

  // ---------------------------------------------------------------- when a Get fails

  /** The node and key of a getter call that fails in this step. */
  function FailsAt(s: State, a: Action): set<(string, string)> {
    if a.GetterReturn? && !a.ok && a.t < |s.threads| then {(s.threads[a.t].node, s.threads[a.t].key)} else {}
  }

  /** A failed Get, or one about to fail, has a failed getter call of its node and key behind it, or no
      key; and a Get without a key goes no further than the first test. */
  ghost predicate Excused(s: State, t: Tid, failures: set<(string, string)>)
    requires t < |s.threads|
  {
    var th := s.threads[t];
    && (th.pc == Finished(Failed) ==> th.key == "" || (th.node, th.key) in failures)
    && (th.pc == InDo(FnDone(Failed)) ==> (th.node, th.key) in failures)
    && (th.key == "" ==> th.pc.Start? || th.pc == Finished(Failed))
  }

  ghost predicate FlightExcused(s: State, n: string, failures: set<(string, string)>)
    requires n in s.flights
  {
    forall c: nat :: c < |s.flights[n].calls| && s.flights[n].calls[c].result == Some(Failed) ==>
      (n, s.flights[n].calls[c].key) in failures
  }

  ghost predicate AllExcused(s: State, failures: set<(string, string)>) {
    && (forall t: Tid :: t < |s.threads| ==> Excused(s, t, failures))
    && (forall n :: n in s.flights ==> FlightExcused(s, n, failures))
  }

  lemma PlainExcused(cfg: Config, s: State, a: Action, failures: set<(string, string)>)
    requires ValidConfig(cfg) && Shaped(cfg, s) && Enabled(cfg, s, a) && !a.Arrive? && !a.Group?
    requires Excused(s, a.t, failures)
    ensures a.t < |Do(cfg, s, a).threads| && Excused(Do(cfg, s, a), a.t, failures + FailsAt(s, a))
  {
    hide Find, TouchIn, AddTo, PickEffect;
    if a.Pick? {
      PickGoesOn(cfg, s, a.t);
    }
  }

  lemma PickGoesOn(cfg: Config, s: State, t: Tid)
    requires ValidConfig(cfg) && Shaped(cfg, s) && t < |s.threads|
    ensures var pc := PickEffect(cfg, s, t).pc; pc.InDo? && !pc.load.FnDone?
  {
  }

  /** A result read from a call is the call's. */
  lemma GroupExcused(cfg: Config, s: State, a: Action, failures: set<(string, string)>)
    requires ValidConfig(cfg) && Shaped(cfg, s) && Enabled(cfg, s, a) && a.Group?
    requires ThreadOk(cfg, s, a.t) && FlightOk(cfg, s, s.threads[a.t].node)
    requires Excused(s, a.t, failures) && FlightExcused(s, s.threads[a.t].node, failures)
    ensures a.t < |Do(cfg, s, a).threads| && Excused(Do(cfg, s, a), a.t, failures)
  {
    hide LoadOk;
    assert SF.PcOk(Flight(s, a.t), a.t);
  }

  lemma OwnExcused(cfg: Config, s: State, a: Action, failures: set<(string, string)>)
    requires ValidConfig(cfg) && Inv(cfg, s) && Enabled(cfg, s, a) && !a.Arrive?
    requires AllExcused(s, failures)
    ensures a.t < |Do(cfg, s, a).threads| && Excused(Do(cfg, s, a), a.t, failures + FailsAt(s, a))
  {
    hide Inv, Do, Excused, FlightExcused, ThreadOk, FlightOk, CacheOk;
    InvAt(cfg, s, a.t);
    assert Excused(s, a.t, failures) && FlightExcused(s, s.threads[a.t].node, failures);
    if a.Group? {
      GroupExcused(cfg, s, a, failures);
      assert FailsAt(s, a) == {} && failures + {} == failures;
    } else {
      PlainExcused(cfg, s, a, failures);
    }
  }

  lemma OtherExcused(s: State, s': State, t: int, u: Tid, failures: set<(string, string)>, more: set<(string, string)>)
    requires ThreadsFramed(s.threads, s'.threads, t) && u < |s'.threads| && u != t
    requires u < |s.threads| ==> Excused(s, u, failures)
    ensures Excused(s', u, failures + more)
  {
  }

  lemma GroupFlightExcused(cfg: Config, s: State, a: Action, failures: set<(string, string)>)
    requires ValidConfig(cfg) && Shaped(cfg, s) && Enabled(cfg, s, a) && a.Group?
    requires ThreadOk(cfg, s, a.t) && Excused(s, a.t, failures)
    requires FlightExcused(s, s.threads[a.t].node, failures)
    ensures var n := s.threads[a.t].node; n in Do(cfg, s, a).flights && FlightExcused(Do(cfg, s, a), n, failures)
  {
    hide LoadOk;
    var f, fa := Flight(s, a.t), FlightAction(s.threads[a.t], a.t, a.step);
    var f' := SF.Do(f, fa);
    GroupStepFrame(f, fa);
    forall c: nat | c < |f'.calls| && f'.calls[c].result == Some(Failed)
      ensures (s.threads[a.t].node, f'.calls[c].key) in failures
    {
      GroupStepResults(f, fa, c);
    }
  }

  lemma FlightsExcused(cfg: Config, s: State, a: Action, n: string, failures: set<(string, string)>)
    requires ValidConfig(cfg) && Inv(cfg, s) && Enabled(cfg, s, a) && AllExcused(s, failures) && n in s.flights
    ensures n in Do(cfg, s, a).flights && FlightExcused(Do(cfg, s, a), n, failures + FailsAt(s, a))
  {
    ClusterLoading.InvShaped(cfg, s);
    hide Inv, Do, Excused, ThreadOk, FlightOk, CacheOk, Enabled;
    assert FlightExcused(s, n, failures);
    if a.Group? && ActsOn(s, a, n) {
      ActorThere(cfg, s, a);
      InvAt(cfg, s, a.t);
      assert Excused(s, a.t, failures);
      GroupFlightExcused(cfg, s, a, failures);
    } else {
      FlightsFramed(cfg, s, a, n);
    }
  }

  predicate ActsOn(s: State, a: Action, n: string) {
    !a.Arrive? && a.t < |s.threads| && s.threads[a.t].node == n
  }

  lemma ActorThere(cfg: Config, s: State, a: Action)
    requires ValidConfig(cfg) && Shaped(cfg, s) && Enabled(cfg, s, a) && !a.Arrive?
    ensures a.t < |s.threads| && s.threads[a.t].node in cfg.nodes
  {
  }

  lemma ExcusedStep(cfg: Config, s: State, a: Action, failures: set<(string, string)>)
    requires ValidConfig(cfg) && Inv(cfg, s) && Enabled(cfg, s, a) && AllExcused(s, failures)
    ensures AllExcused(Do(cfg, s, a), failures + FailsAt(s, a))
  {
    hide Do, Enabled, Excused, FlightExcused, ThreadOk, FlightOk, CacheOk, FailsAt, ThreadsFramed, Flight;
    var s' := Do(cfg, s, a);
    StepFramed(cfg, s, a);
    forall t: Tid | t < |s'.threads| ensures Excused(s', t, failures + FailsAt(s, a)) {
      if t == Actor(a) {
        OwnExcused(cfg, s, a, failures);
      } else {
        OtherExcused(s, s', Actor(a), t, failures, FailsAt(s, a));
      }
    }
    forall n | n in s'.flights ensures FlightExcused(s', n, failures + FailsAt(s, a)) {
      FlightsExcused(cfg, s, a, n, failures);
    }
  }

  /** Nodes and keys of the getter calls that failed before state i. */
  function Failures(r: Run, i: nat): set<(string, string)>
    requires i <= |r.actions| < |r.states|
  {
    if i == 0 then {} else Failures(r, i - 1) + FailsAt(r.states[i - 1], r.actions[i - 1])
  }

  lemma {:induction false} ExcusedInEveryRun(cfg: Config, r: Run, i: nat)
    requires ValidConfig(cfg) && IsRun(cfg, r) && i < |r.states|
    ensures i <= |r.actions| < |r.states| && AllExcused(r.states[i], Failures(r, i))
  {
    hide Inv, Do, Enabled, IsRun, FailsAt;
    RunStep(cfg, r, i);
    if i > 0 {
      ExcusedInEveryRun(cfg, r, i - 1);
      InvInEveryRun(cfg, r, i - 1);
      ExcusedStep(cfg, r.states[i - 1], r.actions[i - 1], Failures(r, i - 1));
    }
  }

  /** Before state i a call of node n's getter for this key has failed. */
  ghost predicate GetterFailed(r: Run, i: nat, n: string, key: string) {
    exists j: nat :: j < i && FailedStep(r, j, n, key)
  }

  predicate FailedStep(r: Run, j: nat, n: string, key: string) {
    && j < |r.actions| && j < |r.states| && r.actions[j].GetterReturn? && !r.actions[j].ok
    && r.actions[j].t < |r.states[j].threads|
    && r.states[j].threads[r.actions[j].t].node == n && r.states[j].threads[r.actions[j].t].key == key
  }

  lemma {:induction false} FailureOnRecord(r: Run, i: nat, n: string, key: string)
    requires i <= |r.actions| < |r.states| && (n, key) in Failures(r, i)
    ensures GetterFailed(r, i, n, key)
  {
    if (n, key) in Failures(r, i - 1) {
      FailureOnRecord(r, i - 1, n, key);
    } else {
      assert FailedStep(r, i - 1, n, key);
    }
  }

  /** A Get fails only without a key or after its own node's getter failed for its key. No failure of a
      peer, of a request to it, or of its getter makes a Get fail. */
  lemma FailsOnlyWithLocalGetter(cfg: Config, r: Run, i: nat, t: Tid)
    requires ValidConfig(cfg) && IsRun(cfg, r) && i < |r.states| && t < |r.states[i].threads|
    requires r.states[i].threads[t].pc == Finished(Failed)
    ensures var th := r.states[i].threads[t]; th.key == "" || GetterFailed(r, i, th.node, th.key)
  {
    hide IsRun, GetterFailed, Failures;
    ExcusedInEveryRun(cfg, r, i);
    var th := r.states[i].threads[t];
    assert Excused(r.states[i], t, Failures(r, i));
    if th.key != "" {
      FailureOnRecord(r, i, th.node, th.key);
    }
  }

  /** While no getter call fails, every Get of a key that has finished has the source's value, whatever
      peers and requests do; and a Get of the empty key fails. */
  lemma EveryGetAnswersAsSource(cfg: Config, r: Run, i: nat, t: Tid)
    requires ValidConfig(cfg) && IsRun(cfg, r) && i < |r.states| && t < |r.states[i].threads|
    requires forall j :: 0 <= j < |r.actions| ==> r.actions[j].GetterReturn? ==> r.actions[j].ok
    requires r.states[i].threads[t].pc.Finished?
    ensures var th := r.states[i].threads[t];
            if th.key == "" then th.pc.reply == Failed
            else cfg.source(th.key).Some? && th.pc.reply == Ok(cfg.source(th.key).value)
  {
    hide IsRun;
    ExcusedInEveryRun(cfg, r, i);
    var th := r.states[i].threads[t];
    assert Excused(r.states[i], t, Failures(r, i));
    ReadsAgreeWithSource(cfg, r, i);
    if th.pc.reply == Failed && th.key != "" {
      FailsOnlyWithLocalGetter(cfg, r, i, t);
    }
  }

  // ---------------------------------------------------------------- where Gets come from

  /** The step starts this Get: a client asks this node for this key, or a Get elsewhere forwards its own
      key to the peer it picked. */
  ghost predicate Starts(cfg: Config, s: State, a: Action, th: Thread)
    requires ValidConfig(cfg)
  {
    if th.forPeer then
      && a.Pick? && a.t < |s.threads| && s.threads[a.t].key == th.key && s.threads[a.t].node in cfg.nodes
      && PickAt(cfg, s.threads[a.t].node, th.key) == Some(th.node)
    else a == Arrive(th.node, th.key)
  }

  lemma StartedNow(cfg: Config, s: State, a: Action, u: Tid)
    requires ValidConfig(cfg) && Shaped(cfg, s) && Enabled(cfg, s, a)
    requires |s.threads| <= u < |Do(cfg, s, a).threads|
    ensures Starts(cfg, s, a, Do(cfg, s, a).threads[u])
  {
    hide Find, TouchIn, PickAt, SF.Do, SF.Enabled, AddTo;
  }

  lemma {:induction false} GetsAreAskedFor(cfg: Config, r: Run, i: nat, t: Tid) returns (j: nat)
    requires ValidConfig(cfg) && IsRun(cfg, r) && i < |r.states| && t < |r.states[i].threads|
    ensures j < i && |r.states| == |r.actions| + 1
    ensures Starts(cfg, r.states[j], r.actions[j], r.states[i].threads[t])
  {
    hide Do, Enabled, IsRun, Starts;
    RunStep(cfg, r, i);
    if i == 0 {
      assert false;
    } else {
      var s, a := r.states[i - 1], r.actions[i - 1];
      StepFramed(cfg, s, a);
      if t < |s.threads| {
        j := GetsAreAskedFor(cfg, r, i - 1, t);
        SameStart(cfg, r.states[j], r.actions[j], s.threads[t], r.states[i].threads[t]);
      } else {
        j := i - 1;
        StartedNow(cfg, s, a, t);
      }
    }
  }

  lemma SameStart(cfg: Config, s: State, a: Action, th: Thread, th': Thread)
    requires ValidConfig(cfg) && Starts(cfg, s, a, th) && SameGet(th, th')
    ensures Starts(cfg, s, a, th')
  {
  }

  /** What a client asked for is asked: its Get is on that node, for that key, from then on. */
  lemma {:induction false} ArrivalsAreServed(cfg: Config, r: Run, j: nat, i: nat)
    requires ValidConfig(cfg) && IsRun(cfg, r) && j < i < |r.states|
    requires j < |r.actions| && r.actions[j].Arrive?
    ensures var t := |r.states[j].threads|;
            t < |r.states[i].threads| &&
            SameGet(r.states[i].threads[t], Thread(r.actions[j].node, r.actions[j].key, false, Start))
    decreases i - j
  {
    hide Do, Enabled, IsRun;
    RunStep(cfg, r, i);
    var s, a := r.states[i - 1], r.actions[i - 1];
    if i == j + 1 {
      ArrivalAdds(cfg, s, a);
    } else {
      ArrivalsAreServed(cfg, r, j, i - 1);
      StepFramed(cfg, s, a);
    }
  }

  lemma ArrivalAdds(cfg: Config, s: State, a: Action)
    requires ValidConfig(cfg) && Shaped(cfg, s) && Enabled(cfg, s, a) && a.Arrive?
    ensures Do(cfg, s, a).threads == s.threads + [Thread(a.node, a.key, false, Start)]
  {
  }

  // ---------------------------------------------------------------- failed peer requests

  /** The step is the failure of a peer request: of the request itself, or of the peer's Get. */
  predicate PeerRequestFails(s: State, a: Action) {
    a.PeerError? ||
    (a.PeerReply? && a.t < |s.threads| && s.threads[a.t].pc.InDo? && s.threads[a.t].pc.load.Awaiting? &&
     s.threads[a.t].pc.load.child.Some? && s.threads[a.t].pc.load.child.value < |s.threads| &&
     s.threads[s.threads[a.t].pc.load.child.value].pc == Finished(Failed))
  }

  lemma PeerFailedStep(cfg: Config, s: State, a: Action)
    requires ValidConfig(cfg) && Shaped(cfg, s) && Enabled(cfg, s, a)
    ensures Do(cfg, s, a).peerFailed <==> s.peerFailed || PeerRequestFails(s, a)
  {
    hide Find, TouchIn, AddTo, SF.Do, SF.Enabled;
  }

  lemma {:induction false} PeerFailedIffRequestFailed(cfg: Config, r: Run, i: nat)
    requires ValidConfig(cfg) && IsRun(cfg, r) && i < |r.states|
    ensures |r.states| == |r.actions| + 1
    ensures r.states[i].peerFailed <==> exists j :: 0 <= j < i && PeerRequestFails(r.states[j], r.actions[j])
  {
    hide Do, Enabled, IsRun, PeerRequestFails;
    RunStep(cfg, r, i);
    if i > 0 {
      PeerFailedIffRequestFailed(cfg, r, i - 1);
      PeerFailedStep(cfg, r.states[i - 1], r.actions[i - 1]);
    }
  }

  // ---------------------------------------------------------------- hits, and loads that are stored

  /** A Get whose key is cached ends in its first step; any other Get of a key goes on to load it. */
  lemma HitEndsGet(cfg: Config, s: State, t: Tid)
    requires ValidConfig(cfg) && Inv(cfg, s) && Enabled(cfg, s, LookUp(t)) && s.threads[t].key != ""
    ensures t < |Do(cfg, s, LookUp(t)).threads|
    ensures var th, pc := s.threads[t], Do(cfg, s, LookUp(t)).threads[t].pc;
            if exists e :: e in s.caches[th.node] && e.key == th.key
            then cfg.source(th.key).Some? && pc == Finished(Ok(cfg.source(th.key).value))
            else pc == Missed
  {
    hide ThreadOk, FlightOk, TouchIn, Find;
    var th := s.threads[t];
    var c := s.caches[th.node];
    assert CacheOk(cfg, s, th.node);
    FindIffHasKey(c, th.key);
    if Find(c, th.key).Some? {
      FindMember(c, th.key);
    }
    LookUpGoes(cfg, s, t);
  }

  lemma LookUpGoes(cfg: Config, s: State, t: Tid)
    requires ValidConfig(cfg) && Shaped(cfg, s) && Enabled(cfg, s, LookUp(t)) && s.threads[t].key != ""
    ensures t < |Do(cfg, s, LookUp(t)).threads|
    ensures Do(cfg, s, LookUp(t)).threads[t].pc ==
            match Find(s.caches[s.threads[t].node], s.threads[t].key)
            case Some(v) => Finished(Ok(v))
            case None => Missed
  {
  }

  /** A value loaded and not yet stored. */
  predicate Unstored(s: State, t: Tid) {
    t < |s.threads| && s.threads[t].pc.InDo? && s.threads[t].pc.load.Storing?
  }

  lemma UnstoredStep(cfg: Config, s: State, a: Action, t: Tid)
    requires ValidConfig(cfg) && Inv(cfg, s) && Enabled(cfg, s, a)
    requires Unstored(s, t) || a == GetterReturn(t, true)
    ensures Unstored(Do(cfg, s, a), t) || a == Store(t)
  {
    ClusterLoading.InvShaped(cfg, s);
    hide Inv, Do, Enabled, CacheOk, FlightOk, ThreadOk;
    StepFramed(cfg, s, a);
    if a.Arrive? || a.t != t {
    } else if a.Group? {
      ActorThere(cfg, s, a);
      InvAt(cfg, s, t);
      GroupKeepsUnstored(cfg, s, a);
    } else {
      OwnUnstored(cfg, s, a);
    }
  }

  lemma OwnUnstored(cfg: Config, s: State, a: Action)
    requires ValidConfig(cfg) && Shaped(cfg, s) && Enabled(cfg, s, a) && !a.Arrive? && !a.Group?
    requires Unstored(s, a.t) || (a.GetterReturn? && a.ok)
    ensures Unstored(Do(cfg, s, a), a.t) || a.Store?
  {
    hide Find, TouchIn, AddTo;
  }

  /** A Get that has a value to store is still inside fn. */
  lemma GroupKeepsUnstored(cfg: Config, s: State, a: Action)
    requires ValidConfig(cfg) && Shaped(cfg, s) && Enabled(cfg, s, a) && a.Group? && ThreadOk(cfg, s, a.t)
    ensures !Unstored(s, a.t)
  {
    hide LoadOk;
  }

  /** Whatever the local getter returns is stored before the Get goes on. */
  lemma {:induction false} LoadedIsStored(cfg: Config, r: Run, j: nat, i: nat, t: Tid)
    requires ValidConfig(cfg) && IsRun(cfg, r) && j < i < |r.states|
    requires j < |r.actions| && r.actions[j] == GetterReturn(t, true)
    ensures |r.states| == |r.actions| + 1
    ensures Unstored(r.states[i], t) || exists k :: j < k < i && r.actions[k] == Store(t)
    decreases i - j
  {
    hide Inv, Do, Enabled, IsRun, Unstored;
    RunStep(cfg, r, i);
    InvInEveryRun(cfg, r, i - 1);
    if i == j + 1 {
      UnstoredStep(cfg, r.states[j], r.actions[j], t);
      assert GetterReturn(t, true) != Store(t);
    } else {
      LoadedIsStored(cfg, r, j, i - 1, t);
      if Unstored(r.states[i - 1], t) {
        UnstoredStep(cfg, r.states[i - 1], r.actions[i - 1], t);
      }
    }
  }

  // ---------------------------------------------------------------- what a node caches

  /** The key that a step makes the most recent one on node n: one stored, or one a Get was answered from
      at once. */
  function Accessed(s: State, a: Action, s': State, n: string): Option<string> {
    if a.Arrive? || a.t >= |s.threads| || a.t >= |s'.threads| || s.threads[a.t].node != n then None
    else if a.Store? then Some(s.threads[a.t].key)
    else if a.LookUp? && s'.threads[a.t].pc.Finished? && s'.threads[a.t].pc.reply.Ok? then Some(s.threads[a.t].key)
    else None
  }

  /** The key with the source's value in front. */
  function Touched(cfg: Config, past: Recency, key: string): Recency {
    match cfg.source(key) case None => past case Some(v) => Updated(past, key, v)
  }

  /** The history of a node after one more step. */
  function Recorded(cfg: Config, past: Recency, accessed: Option<string>): Recency {
    match accessed case None => past case Some(key) => Touched(cfg, past, key)
  }

  /** What node n has ever stored, most recently accessed first, as if nothing were evicted. */
  function NodeHistory(cfg: Config, r: Run, i: nat, n: string): Recency
    requires i <= |r.actions| < |r.states|
  {
    if i == 0 then []
    else
      Recorded(cfg, NodeHistory(cfg, r, i - 1, n), Accessed(r.states[i - 1], r.actions[i - 1], r.states[i], n))
  }

  ghost predicate FromSource(cfg: Config, past: Recency) {
    DistinctKeys(past) && forall e :: e in past ==> cfg.source(e.key) == Some(e.value)
  }

  lemma TouchedFromSource(cfg: Config, past: Recency, key: string)
    requires FromSource(cfg, past)
    ensures FromSource(cfg, Touched(cfg, past, key))
  {
    if cfg.source(key).Some? {
      UpdatedDistinct(past, key, cfg.source(key).value);
      WithoutKeys(past, key);
    }
  }

  /** Storing a key that another Get of this node has stored meanwhile: nothing has to go. */
  lemma StoreAgainKeepsFit(budget: nat, past: Recency, c: Recency, key: string, value: Bytes)
    requires DistinctKeys(past) && DistinctKeys(c) && LongestFit(budget, past, c) && Find(c, key) == Some(value)
    ensures LongestFit(budget, Updated(past, key, value), AddTo(budget, c, key, value))
  {
    ReadThrough.HitKeepsFit(budget, past, c, key);
    TouchKeepsTotal(c, key);
    assert AddTo(budget, c, key, value) == TouchIn(c, key);
  }

  lemma StoreKeepsFit(cfg: Config, budget: nat, past: Recency, c: Recency, key: string, value: Bytes)
    requires FromSource(cfg, past) && FromSource(cfg, c) && LongestFit(budget, past, c)
    requires cfg.source(key) == Some(value)
    ensures LongestFit(budget, Touched(cfg, past, key), AddTo(budget, c, key, value))
  {
    hide Find, Updated, AddTo, LongestFit;
    match Find(c, key)
    case None => ReadThrough.MissKeepsFit(budget, past, c, Entry(key, value));
    case Some(v) =>
      FindMember(c, key);
      StoreAgainKeepsFit(budget, past, c, key, v);
  }

  lemma HitKeepsFit(cfg: Config, budget: nat, past: Recency, c: Recency, key: string)
    requires FromSource(cfg, past) && FromSource(cfg, c) && LongestFit(budget, past, c) && Find(c, key).Some?
    ensures LongestFit(budget, Touched(cfg, past, key), TouchIn(c, key))
  {
    hide Find, Updated, TouchIn, LongestFit;
    FindMember(c, key);
    ReadThrough.HitKeepsFit(budget, past, c, key);
  }

  /** What a step does to the cache of its node. */
  lemma CacheEffect(cfg: Config, s: State, a: Action)
    requires ValidConfig(cfg) && Shaped(cfg, s) && Enabled(cfg, s, a) && !a.Arrive? && !a.Group?
    ensures a.t < |s.threads| && a.t < |Do(cfg, s, a).threads|
    ensures var th := s.threads[a.t];
            var c := s.caches[th.node];
            match Accessed(s, a, Do(cfg, s, a), th.node)
            case None => PlainEffect(cfg, s, a).cache == c
            case Some(key) =>
              if a.Store? then key == th.key && PlainEffect(cfg, s, a).cache ==
                                 AddTo(cfg.nodes[th.node].cacheBytes, c, key, th.pc.load.value)
              else Find(c, key).Some? && PlainEffect(cfg, s, a).cache == TouchIn(c, key)
  {
    hide Find, TouchIn, AddTo;
  }

  lemma NothingAccessed(cfg: Config, s: State, a: Action, n: string)
    requires ValidConfig(cfg) && Shaped(cfg, s) && Enabled(cfg, s, a) && (!ActsOn(s, a, n) || a.Group?)
    ensures Accessed(s, a, Do(cfg, s, a), n) == None
  {
  }

  lemma OwnCacheStep(cfg: Config, s: State, a: Action, past: Recency)
    requires ValidConfig(cfg) && Shaped(cfg, s) && Enabled(cfg, s, a) && !a.Arrive? && !a.Group?
    requires ThreadOk(cfg, s, a.t) && CacheOk(cfg, s, s.threads[a.t].node)
    requires var n := s.threads[a.t].node;
             FromSource(cfg, past) && LongestFit(cfg.nodes[n].cacheBytes, past, s.caches[n])
    ensures var n := s.threads[a.t].node;
            LongestFit(cfg.nodes[n].cacheBytes, Recorded(cfg, past, Accessed(s, a, Do(cfg, s, a), n)),
                       PlainEffect(cfg, s, a).cache)
  {
    hide Do, Enabled, PlainEffect, ThreadOk, LongestFit, AddTo, TouchIn, Find, Touched, Accessed;
    CacheEffect(cfg, s, a);
    var n := s.threads[a.t].node;
    if a.Store? {
      StoringSource(cfg, s, a);
      StoreKeepsFit(cfg, cfg.nodes[n].cacheBytes, past, s.caches[n], s.threads[a.t].key, s.threads[a.t].pc.load.value);
    } else if Accessed(s, a, Do(cfg, s, a), n).Some? {
      HitKeepsFit(cfg, cfg.nodes[n].cacheBytes, past, s.caches[n], Accessed(s, a, Do(cfg, s, a), n).value);
    }
  }

  lemma CachesStep(cfg: Config, s: State, a: Action, n: string, past: Recency)
    requires ValidConfig(cfg) && Inv(cfg, s) && Enabled(cfg, s, a) && n in cfg.nodes
    requires FromSource(cfg, past) && LongestFit(cfg.nodes[n].cacheBytes, past, s.caches[n])
    ensures n in Do(cfg, s, a).caches
    ensures LongestFit(cfg.nodes[n].cacheBytes, Recorded(cfg, past, Accessed(s, a, Do(cfg, s, a), n)),
                       Do(cfg, s, a).caches[n])
  {
    ClusterLoading.InvShaped(cfg, s);
    hide Do, Enabled, PlainEffect, Inv, ThreadOk, FlightOk, CacheOk, LongestFit, FromSource, Accessed;
    CachesFramed(cfg, s, a, n);
    if !ActsOn(s, a, n) || a.Group? {
      NothingAccessed(cfg, s, a, n);
    } else {
      InvAt(cfg, s, a.t);
      OwnCacheStep(cfg, s, a, past);
    }
  }

  lemma StoringSource(cfg: Config, s: State, a: Action)
    requires ValidConfig(cfg) && Shaped(cfg, s) && Enabled(cfg, s, a) && a.Store? && ThreadOk(cfg, s, a.t)
    ensures s.threads[a.t].pc.InDo? && s.threads[a.t].pc.load.Storing?
    ensures cfg.source(s.threads[a.t].key) == Some(s.threads[a.t].pc.load.value)
  {
  }

  /** In every run, whatever Gets interleave, a node's cache is the longest prefix within its budget of
      what it has stored itself, most recently stored or hit first: values that came from peers, misses
      and other nodes leave it alone. */
  lemma {:induction false} CacheIsOwnHistory(cfg: Config, r: Run, i: nat, n: string)
    requires ValidConfig(cfg) && IsRun(cfg, r) && i < |r.states| && n in cfg.nodes
    ensures i <= |r.actions| < |r.states| && n in r.states[i].caches
    ensures LongestFit(cfg.nodes[n].cacheBytes, NodeHistory(cfg, r, i, n), r.states[i].caches[n])
    ensures FromSource(cfg, NodeHistory(cfg, r, i, n))
  {
    hide Inv, Do, Enabled, IsRun, Accessed, Touched, FromSource, LongestFit;
    RunStep(cfg, r, i);
    if i == 0 {
      EmptyHistory(cfg, cfg.nodes[n].cacheBytes);
    } else {
      CacheIsOwnHistory(cfg, r, i - 1, n);
      InvInEveryRun(cfg, r, i - 1);
      var past, s, a := NodeHistory(cfg, r, i - 1, n), r.states[i - 1], r.actions[i - 1];
      CachesStep(cfg, s, a, n, past);
      if Accessed(s, a, r.states[i], n).Some? {
        TouchedFromSource(cfg, past, Accessed(s, a, r.states[i], n).value);
      }
    }
  }

  lemma EmptyHistory(cfg: Config, budget: nat)
    ensures LongestFit(budget, [], []) && FromSource(cfg, [])
  {
  }
}
